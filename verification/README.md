# Invariants of the chain, the pool and their helpers

A Dafny model of the parts of this Ethereum client whose correctness rests on invariants that span
many calls, or many goroutines: the transaction pool and its lists, the header chain and the
canonical block chain, the concurrent binary Merkle tree hasher, the event feed, the weighted random
selection, the chain indexer, the light client's request distributor, and gas accounting from a
message up to a block. What the code changes in place is modelled in place, by classes and loops;
what other goroutines may do in between is modelled by arbitrary interference or, for the hasher, by
a transition system over all interleavings.

| file | what it models |
|---|---|
| Types | what several components share |
| Heap, TxListSpec, TxSortedMap, TxLists | nonce-sorted maps and transaction lists over `container/heap` |
| PricedList | the price heap with lazy deletion |
| PoolBooks, PoolTotals, TxPool | the pool: what its lists and its lookup have to do with each other, counts, operations and runs |
| ChainTree, HeaderChain, BlockChain | headers as a tree, the canonical index, total difficulties, reorganisations |
| RefHasher, BmtTree, BmtChunk | the reference hasher, the goroutines of the concurrent one, and why both agree |
| Feed | one-to-many sends under concurrent subscriptions and cancellations |
| WeightTree, RandSelect | the eight-way sum tree as a value, and its nodes updated in place |
| ChainIndexer | sections processed while the lock is released |
| Distributor | the request queue and the choice of the next request |
| IntrinsicGas, Ledger, StateTransition | gas, balances, receipts |

Hashes are numbers; that no two transactions, headers or blocks share one is expressed by a ghost
function from hashes back to what was hashed. Amounts of ether are unbounded, as `big.Int` is. Gas is
64-bit in `StateTransition`, where every addition and subtraction is checked to stay in range.

Choices the code makes at random or by timing are nondeterministic here: ties between equally heavy
heads, iteration over maps, heartbeat order, what the caches evict, which subscriber is ready, when a
notification comes in, what the virtual machine does.

Some properties one would expect do not hold, and are proved up to the exact condition instead.

- Rewinding the header chain leaves a tree exactly if no side header had forked off a rewound header
  (`HeaderChain.RewoundTree`, with a failing chain in `HeaderChain.RewindStrands`). After a rewind that
  strands headers, index, head and total difficulties are still right, but the reroute loop ends exactly
  if the ancestry of the new head is complete (`HeaderChain.RewriteIndex`, with a failing write in
  `HeaderChain.RerouteFails`).
- The hasher's toggle tells its two callers apart exactly while its counter is not negative
  (`BmtTree.ToggleWorks`). The 32-bit counter of a tree that has hashed k chunks is negative exactly if
  k mod 2^31 is at least 2^30 (`BmtTree.ToggleWraps`); `BmtTree.WrongResult` is what a run then delivers.
- A block keeps the sum of all balances exactly if no transaction pays fee, refund or value to an account
  that it has destroyed (`StateTransition.Process`, with a failing block in `StateTransition.FeeLost`).
- A full pool makes room for a new transaction provided the price heap lists no remote transaction twice
  (`TxPool.RoomMade`); `PricedList.TwinNamedTwice` is a heap that does, and frees one slot instead of two.
- The limit of the pending lists is kept by every operation. The queue can outgrow its own: removing a
  pending transaction sends the later ones of its sender back and caps nothing (`TxPool.Pool.RemoveTx`).

## Model

| member | source | states |
|---|---|---|
| TxSortedMap.SortedMap.Put | core/tx_list.go:73-79 | the contents gain or replace the transaction under its nonce, the index stays a min-heap of exactly the nonces, the sorted cache is dropped |
| TxSortedMap.SortedMap.Forward | core/tx_list.go:84-98 | returns exactly the transactions below the threshold in nonce order and keeps the others |
| TxSortedMap.SortedMap.Filter | core/tx_list.go:102-123 | splits the contents into those that match and those that do not; heap and cache stay right |
| TxSortedMap.SortedMap.Cap | core/tx_list.go:127-148 | drops exactly the highest surplus nonces, returned from the highest down, and keeps the lowest `threshold` |
| TxSortedMap.SortedMap.Remove | core/tx_list.go:152-169 | reports whether the nonce was there and removes that entry alone |
| TxSortedMap.SortedMap.Ready | core/tx_list.go:178-193 | returns the maximal consecutive run from the lowest nonce if that does not exceed start, else nothing |
| TxSortedMap.SortedMap.Flat | core/tx_list.go:203-216 | returns the sorted contents, from the cache or by sorting, and leaves them cached |
| TxSortedMap.PopBelow | core/tx_list.go:87-92 | popping the heap while its root is below the threshold removes exactly the nonces below it |
| TxSortedMap.PopRun | core/tx_list.go:184-189 | popping the heap while the next nonce follows yields the consecutive run and nothing else |
| TxSortedMap.CapContents | core/tx_list.go:132-146 | sorting the index and cutting it at the threshold leaves a heap of exactly the lowest nonces |
| TxListSpec.FlattenSorted | core/tx_list.go:203-216 | the listing is strictly ascending in nonce and lists each transaction once, all of them |
| TxListSpec.FlattenByIndex | core/tx_list.go:203-216 | looking up a sorted index nonce by nonce gives the sorted listing |
| TxListSpec.CutOffSplits | core/tx_list.go:135-140 | the nonce at position k splits the listing into its first k entries and the rest |
| Heap.Up | core/tx_list.go:76 | heap.Push's sift-up restores the heap order and permutes nothing away |
| Heap.Down | core/tx_list.go:141 | sifting down restores the order below a slot, permutes and leaves unreachable slots alone |
| Heap.Init | core/tx_list.go:112-118 | heap.Init makes a heap of any sequence with the same elements |
| Heap.Pop | core/tx_list.go:87-92 | heap.Pop removes a least element and leaves a heap of the others |
| Heap.TakeOut | core/tx_list.go:159-164 | heap.Remove takes the element at an index out and leaves a heap |
| Heap.RootIsLeast | core/tx_list.go:180-189 | no element of a heap is less than its root |
| TxLists.Insert | core/tx_list.go:255-271 | keeps the caps above every cost and gas of the list |
| TxLists.TxList.Add | core/tx_list.go:251-272 | accepts a transaction exactly if its nonce is free or its price is higher and no lower than the old one raised by the bump and rounded down, and raises the caps to cover it |
| TxLists.OutbidsRaises | core/tx_list.go:255-259 | the threshold test without its division: the old price raised by the bump is less than one above the new one |
| TxLists.TxList.Forward | core/tx_list.go:277-279 | drops everything below the threshold |
| TxLists.TxList.Filter | core/tx_list.go:290-314 | returns exactly the costly transactions and, for a strict list, those behind the first gap; the early return is sound because the caps bound every entry |
| TxLists.TxList.Cap | core/tx_list.go:318-320 | keeps the lowest nonces up to the limit |
| TxLists.TxList.Remove | core/tx_list.go:325-336 | removes the nonce and, in a strict list, everything above it, which is returned |
| TxLists.TxList.Ready | core/tx_list.go:345-347 | hands over the executable run from the lowest nonce |
| TxLists.FilteredItems | core/tx_list.go:290-314 | trusting the cached caps leaves the same contents as scanning every entry |
| TxLists.FilterPartitions | core/tx_list.go:298-313 | kept, costly and invalidated entries partition the list, and what is kept of a strict list is downward closed |
| TxLists.ShortCircuit | core/tx_list.go:291-294 | when both caps are within the limits no entry is costly |
| PricedList.PriceList.Put | core/tx_list.go:414-416 | the heap covers what it covered and the new transaction |
| PricedList.PriceList.Removed | core/tx_list.go:421-436 | lazy deletion and the occasional rebuild lose no transaction of the lookup |
| PricedList.PriceList.Cap | core/tx_list.go:440-467 | the batch is exactly the remote pool transactions below the threshold; the heap still covers all others |
| PricedList.PriceList.Underpriced | core/tx_list.go:471-493 | for a non-empty pool true exactly when the sender is not local and no pool transaction is cheaper than the offered one |
| PricedList.PriceList.Discard | core/tx_list.go:497-520 | drops remote transactions only, none dearer than a remote one it keeps, and fewer than asked for only if no remote one is left; it drops entries of the heap, and of a cheaper remote transaction than one it drops it drops every entry |
| PricedList.DistinctDrop | core/tx_list.go:497-520 | as many transactions are dropped as entries, provided the heap lists no remote transaction of the pool twice |
| PricedList.TwinNamedTwice | core/tx_list.go:414-520 | a heap that a few calls of Put and Removed leave with a transaction listed twice: Discard asked for two names that one twice |
| TxPool.Pool.Run | core/tx_pool.go:605-1123 | over every run of adds, batches, price changes, evictions and resets: pending and queued nonces are disjoint, the lookup is exactly their union and as large as both together, the price heap misses none, all is payable, and every queued nonce lies beyond the virtual one, so nothing executable is stuck; without reinjection each pending list is consecutive from the state nonce and the virtual nonce is state nonce plus length; a local sender's transaction that every state of the run lets it pay is still there unless an operation brought one with its nonce and a higher price; if the pending lists were within their limit at the start they still are |
| TxPool.Pool.Perform | core/tx_pool.go:261-338 | every single operation keeps the pool valid, leaves nothing executable queued, adds only transactions it was given and keeps contiguity unless it reinjects; the transactions it offers are answered one by one as Add does, and in a pool with ample room only unpayable ones leave besides; a price change leaves exactly the local and the dear ones, an eviction takes only queued ones of the given remote accounts; a local sender's transaction that the chain still lets run is lost only to one that outbids it at its nonce; the limit of the pending lists is kept by every operation, that of the queue by every one but a price change while the pool has room |
| TxPool.Pool.constructor | core/tx_pool.go:216-256 | an empty valid pool with a sanitized price limit and bump, within all limits |
| TxPool.Pool.ValidateTx | core/tx_pool.go:554-595 | accepts exactly the transactions within every limit of the node and the state; each error is given for its own reason only |
| TxPool.Pool.Add | core/tx_pool.go:605-673 | a known transaction is reported as such and one beyond a limit refused; of the others a pool with room takes exactly those whose nonce is free or whose price is raised by the bump over the one that has it, which alone they replace; a full pool refuses as underpriced exactly those that are not local and no dearer than any in it, and else takes them if it can, at the expense of remote ones only; only a new slot can leave its sender something to promote; local transactions are lost only by being outbid; payability and contiguity are kept; no pending list grows; an accepted transaction leaves the lookup within globalSlots plus globalQueue or with local ones besides it only, unless the price heap lists a remote one twice |
| TxPool.Pool.MakeRoom | core/tx_pool.go:618-633 | a full pool refuses exactly a transaction that is neither local nor dearer than some in it; else it loses remote transactions, none dearer than a remote one it keeps and no more than leave one free slot, after which there is a free slot or only local ones are left, unless the price heap lists a remote one twice |
| TxPool.Pool.Evict | core/tx_pool.go:626-632 | as many of the cheapest remote transactions go as leave a free slot, or all remote ones, unless the price heap lists one twice; never more |
| TxPool.Pool.ReplacePendingTx | core/tx_pool.go:634-659 | a pending transaction is replaced exactly if it is outbid; the old one leaves the lookup and the slot stays taken |
| TxPool.Pool.Place | core/tx_pool.go:634-672 | the new transaction gets its slot exactly if the list it competes in accepts it, and takes the place of whatever had its nonce; the queue gains at most this one; only local senders become local |
| TxPool.Pool.EnqueueTx | core/tx_pool.go:678-701 | a transaction enters the queue exactly if the list accepts it; one coming back from pending always does and replaces nothing |
| TxPool.Pool.PromoteTx | core/tx_pool.go:719-752 | a queued transaction always finds its pending slot free, fills it and moves the virtual nonce past it |
| TxPool.Pool.AddTx | core/tx_pool.go:783-798 | the answer is that of Add; if it is an error nothing changes by promotion, and with room in both kinds of lists and in its sender's allowance the lookup is exactly the old one with the transaction in the place of whatever had its nonce; otherwise an accepted one is payable and, from a local sender, in the lookup; local transactions are lost only by being outbid; validity, contiguity and a queue with nothing executable are kept; the limit of the pending lists is kept, that of the queue while the pool has room, and a transaction that takes a free slot leaves both kept; the lookup is within its capacity as after Add |
| TxPool.Pool.AddTxsLocked | core/tx_pool.go:810-833 | one answer per transaction, each that of Add in the pool its predecessors left; unless limits are in the way only unpayable transactions leave afterwards; what was accepted is payable and, if its sender was local, is still there afterwards or has been outbid; payability, contiguity and a queue with nothing executable are kept; the limit of the pending lists is kept, that of the queue while the pool has room, and both hold after a batch that took a free slot; an empty batch changes nothing |
| TxPool.Pool.RemoveTx | core/tx_pool.go:863-902 | the lookup loses this transaction and nothing else: exactly the later pending ones go back to the queue, which grows by their number and is not capped; no pending list grows, the virtual nonce is lowered and nothing queued becomes executable by it |
| TxPool.Pool.CutPendingAt | core/tx_pool.go:877-893 | cutting a pending list at a nonce requeues everything above it without loss, beyond the lowered virtual nonce |
| TxPool.Pool.RequeueAll | core/tx_pool.go:885-887 | whatever is sent back takes exactly its own slots in the queue, stays in the lookup and replaces nothing; the queue grows by their number |
| TxPool.Pool.PromoteExecutables | core/tx_pool.go:907-1078 | first every given account is promoted exactly as its payable queue says, no other list changes, and then each kind of list is cut only if it exceeds its limit; so with ample room only unpayable transactions leave; the given accounts have nothing left to promote and nobody else gains any; the pool is within both limits as far as its rules allow; contiguity is kept, and payability if every queued account was given |
| TxPool.Pool.PromoteAccount | core/tx_pool.go:919-962 | of the queue exactly the payable entries count: the run from the lowest up moves to pending and the virtual nonce to its end, the rest stays, for a remote account only the lowest nonces up to its allowance; only unpayable or remote transactions leave the pool |
| TxPool.Pool.DropUnrunnable | core/tx_pool.go:924-939 | exactly the payable entries stay in the queue, and only unpayable ones leave the pool |
| TxPool.Pool.PromoteReady | core/tx_pool.go:940-947 | exactly the run from the lowest nonce, if that does not exceed the virtual nonce, moves to pending, and the virtual nonce to its end; nothing promotable is left behind |
| TxPool.Pool.CapAccountQueue | core/tx_pool.go:948-961 | a remote account keeps exactly its lowest nonces up to the allowance, a local one all; an empty list is deleted |
| TxPool.Pool.CapPending | core/tx_pool.go:967-1037 | nothing changes within the limit; beyond it the cut is max-min fair: no account ends below another remote one, and one more transaction for each account cut would be too many; the running counter is the true total and ends within the limit or with every remote account within its allowance; local accounts are untouched, nobody is cut below the allowance, every list keeps its lowest nonces and no virtual nonce is raised |
| TxPool.Pool.Equalize | core/tx_pool.go:974-1014 | the offenders stay distinct, remote, above their allowance and, while over the limit, of equal length; only they are cut, from the highest nonce down, no further than another remote account and no more than needed |
| TxPool.Pool.CutDown | core/tx_pool.go:994-1035 | whole rounds, the last of which was needed, keep the counter exact and end at the threshold or within the limit |
| TxPool.Pool.CutRound | core/tx_pool.go:996-1011 | every listed account loses exactly one transaction |
| TxPool.Pool.CutTop | core/tx_pool.go:997-1010 | exactly the highest nonce leaves list and lookup, and the virtual nonce is lowered to it |
| TxPool.Pool.CapQueue | core/tx_pool.go:1038-1077 | nothing changes within the limit; beyond it exactly the surplus leaves, or every remote queue is emptied; all queues but one go as a whole or stay, and that one keeps its lowest nonces; local queues are untouched |
| TxPool.Pool.CapQueueOf | core/tx_pool.go:1055-1076 | drops a whole queue or just the highest nonces needed, counting exactly; the lowest nonces stay |
| TxPool.Pool.RemoveQueued | core/tx_pool.go:1060-1072 | exactly the given transactions leave their queue and the lookup |
| TxPool.Pool.DemoteUnexecutables | core/tx_pool.go:1083-1123 | of every pending list exactly the entries from the state nonce up to the first that cannot be paid for stay, or none if the state nonce is missing; whatever left the pool could not be paid for |
| TxPool.Pool.DemoteAccount | core/tx_pool.go:1085-1122 | of one account's list exactly the payable stretch from the state nonce on stays pending, or nothing if the state nonce is missing; only unpayable transactions leave the pool |
| TxPool.Pool.DemoteInvalid | core/tx_pool.go:1095-1108 | exactly the costly ones leave the pool, the invalidated ones go back to the queue |
| TxPool.Pool.PostponeAll | core/tx_pool.go:1109-1116 | a list that does not start at the state nonce goes back to the queue as a whole |
| TxPool.Pool.Reset | core/tx_pool.go:399-430 | the pool moves to the new state: all is payable, limits hold, nothing executable is left queued whatever was reinjected, and contiguity survives if nothing is; local transactions payable under the new state are lost only by being outbid; the reinjected transactions are answered one by one as Add does, and in a pool with ample room only unpayable ones leave besides |
| TxPool.Pool.TrackPendingNonces | core/tx_pool.go:422-426 | every pending account's virtual nonce is right after its last pending transaction |
| TxPool.Pool.SetGasPrice | core/tx_pool.go:463-472 | exactly the remote transactions below the new price leave the pool; the limit of the pending lists is kept |
| TxPool.Pool.RemoveDropped | core/tx_pool.go:463-472 | removing a batch the price heap has let go of takes exactly that batch out of the lookup |
| TxPool.Pool.Expire | core/tx_pool.go:311-325 | the queues of the given remote accounts are emptied, no other queue and no pending list changes, and only remote transactions leave the pool; no queue grows, all of the given accounts |
| TxPool.ExactUnion | core/tx_pool.go:1183-1236 | in a consistent pool with nothing in transit the lookup is the disjoint union of both kinds of lists |
| TxPool.CountsAgree | core/tx_pool.go:484-503 | the lookup is as large as all lists together |
| TxPool.RestoreContiguous | core/tx_pool.go:420-426 | demotion and the tracked nonces make the lists contiguous with the new state |
| TxPool.CutContiguous | core/tx_pool.go:877-893 | cutting a list and lowering the virtual nonce to the cut keeps it contiguous |
| TxPool.ExtendContiguous | core/tx_pool.go:719-752 | promoting the next nonce and raising the virtual nonce keeps the list contiguous |
| TxPool.CutToAllowance | core/tx_pool.go:967-1037 | cutting levelled offenders down to the allowance cuts only remote accounts above it, none below it |
| TxPool.OneMore | core/tx_pool.go:982-1014 | one more offender: the ones so far are cut towards its length and stay level |
| TxPool.PromotedQuiet | core/tx_pool.go:919-962 | promotion leaves the account nothing to promote and the others as they were |
| TxPool.CutQuiet | core/tx_pool.go:877-893 | what goes back to the queue behind a cut lies beyond the virtual nonce, which is lowered to the cut |
| TxPool.Outbid | core/tx_pool.go:634-701 | a new transaction takes a slot only from one it outbids, so the slot's sender loses nothing payable otherwise |
| TxPool.FairlyKept | core/tx_pool.go:907-1078 | if only unpayable or remote transactions leave, every payable local one stays |
| TxPool.LocalsStayOn | core/tx_pool.go:605-1123 | one more operation of a run: a payable local transaction stays unless this operation brought a better one for its nonce |
| TxPool.PayableIs | core/tx_pool.go:924-939 | dropping old nonces and filtering by balance and gas leaves exactly the payable entries of a queue |
| TxPool.TailHighest | core/tx_pool.go:1068-1076 | taking out the last entries of the sorted listing leaves the lowest nonces |
| TxPool.RoomMade | core/tx_pool.go:626-632 | discarding as many as the pool has too many, and one more, leaves a free slot or local transactions only, provided the price heap lists no remote one twice |
| TxPool.SlotHolder | core/tx_pool.go:634-672 | the one transaction of the lookup with a sender and nonce is the one its sender's lists have there, so both agree on who is outbid and what is replaced |
| TxPool.RoomAndSlot | core/tx_pool.go:605-673 | making room and taking the slot together give exactly the answer stated of Add |
| TxPool.OnlyLevelCut | core/tx_pool.go:982-1035 | if only level accounts were cut, no further than the longest other remote one, nobody ends below a remote account |
| TxPool.StillNeeded | core/tx_pool.go:994-1035 | after rounds each of which was needed, one more transaction for each account cut is still too many |
| TxPool.AmpleKeeps | core/tx_pool.go:907-1078 | with room for the queues of the accounts to promote whatever could be paid for stays and no limit of the whole pool is reached |
| TxPool.SpaciousAmple | core/tx_pool.go:907-1078 | so few transactions, in all and of every remote account, that no promotion can meet a limit |
| TxPool.PromotionTotals | core/tx_pool.go:919-962 | promotion makes no queue longer, and the pending lists longer by no more than the queues promoted |
| TxPool.FilteredStretch | core/tx_pool.go:1086-1108 | dropping old nonces and filtering a strict list leaves exactly the entries from the state nonce up to the first that cannot be paid for |
| PoolBooks.FreeNonce | core/tx_pool.go:719-752 | a transaction in transit finds its nonce free in both lists of its sender |
| PoolBooks.TakeFromPending | core/tx_pool.go:877-893 | taking entries off a pending list keeps the books consistent with those entries in transit |
| PoolBooks.TakeFromQueue | core/tx_pool.go:924-947 | the same for a queued list |
| PoolBooks.QueueNew | core/tx_pool.go:678-701 | queueing a new transaction replaces at most the one with its nonce |
| PoolBooks.ReplacePending | core/tx_pool.go:634-659 | replacing a pending transaction keeps the books consistent |
| PoolTotals.ListSpammers | core/tx_pool.go:974-981 | the suspects are exactly the remote accounts above their allowance, longest first |
| PoolTotals.TotalUpdate | core/tx_pool.go:967-1037 | changing one list changes the total by the difference of its lengths |
| PoolTotals.StillWithin | core/tx_pool.go:967-1077 | lists that do not grow, with more accounts local, stay within the limits |
| HeaderChain.Chain.Run | core/headerchain.go:134-195 | over every run of header writes: the index is exactly the head's ancestry with nothing above it, every stored total difficulty is the sum along its path, and no known header is heavier than the head, whichever way ties fall |
| HeaderChain.Chain.RunMixed | core/headerchain.go:134-441 | over every run of writes and any rewinds, up to the first reroute that meets a missing header: the index is exactly the head's ancestry and all of it is stored, every stored total difficulty is a path sum, caches agree; headers lose ancestors, and a reroute fails, only after a rewind that strands a side header |
| HeaderChain.Chain.WriteHeader | core/headerchain.go:134-195 | an unknown parent changes nothing; otherwise the header is stored and becomes the head exactly if it is heavier than the head, or as heavy and favoured by the coin; the caches agree with the database, and a heaviest head stays one; the call meets a nil header exactly if the header is to become the head and an ancestor of its parent is not stored |
| HeaderChain.Chain.Reroute | core/headerchain.go:157-186 | clearing above and rewriting below makes the index exactly the new head's ancestry; it fails exactly if some of that ancestry is not stored |
| HeaderChain.RewriteIndex | core/headerchain.go:166-180 | the reroute loop ends at a header that is already canonical, with the whole index right, exactly if every ancestor is stored; else it dereferences a missing one |
| HeaderChain.Chain.ClearAbove | core/headerchain.go:158-165 | exactly the entries above the new height are deleted |
| HeaderChain.Chain.Store | core/headerchain.go:148-152 | the new header, its number and its total difficulty are stored; database and caches stay consistent |
| HeaderChain.Chain.GetTd | core/headerchain.go:312-324 | the total difficulty of a known header, cached or not, is the sum along its path |
| HeaderChain.GetHeader | core/headerchain.go:346-358 | a known header is found by hash and number through cache or database |
| HeaderChain.Chain.HasHeader | core/headerchain.go:371-376 | true exactly for a known hash that is in one of the caches or is asked for with its own number |
| HeaderChain.ValidateLinks | core/headerchain.go:204-215 | true exactly if every header is the child of the one before it |
| HeaderChain.Chain.InsertHeaderChain | core/headerchain.go:259-285 | a linked chain is known as a whole afterwards, or its first ancestor is unknown and nothing changed; with the ancestry of its first header complete no reroute fails |
| HeaderChain.Chain.SetHead | core/headerchain.go:408-441 | the index is cut at the height, the head is the canonical header there, the caches are empty; index, ancestry of the head and difficulties stay right in any case, and a tree stays a tree exactly if no side header forked off a rewound one |
| HeaderChain.RewoundTree | core/headerchain.go:415-429 | what a rewind leaves is a tree exactly when no side header's parent was rewound |
| HeaderChain.RewindStrands | core/headerchain.go:415-429 | a chain built by the constructor and three writes, rewound to genesis, is left with a side header without its parent, though index, head and difficulties are right |
| HeaderChain.RerouteFails | core/headerchain.go:166-180 | a child of that stranded header outweighs the head, and writing it runs into the missing parent |
| HeaderChain.ChildComplete | core/headerchain.go:134-152 | storing a child of a stored header: its ancestry is complete exactly if its parent's is |
| HeaderChain.RewoundIndex | core/headerchain.go:415-429 | after a rewind the cut index is the whole ancestry of the new head, and none of it was deleted |
| ChainTree.HeavierOfTwo | core/headerchain.go:141-188 | if none of the stored headers was heavier than the head, none is heavier than the heavier of head and newcomer |
| ChainTree.AncestorsCompose | core/headerchain.go:162-176 | the ancestor of an ancestor is an ancestor |
| ChainTree.TreeExtends | core/headerchain.go:134-152 | storing a child of a known header keeps the headers a tree |
| BlockChain.Chain.Run | core/blockchain.go:963-991 | after any sequence of block writes no known block is heavier than the head and none as heavy is lower, every number up to the head's is indexed to the head's ancestor there, and the lookup holds exactly the transactions of that chain with their positions |
| BlockChain.Chain.WriteBlockWithState | core/blockchain.go:963-991 | by total difficulties a heavier block, or an equally heavy lower one, becomes the head, a lighter or an equally heavy higher one does not, and at the same height the coin decides; then index and lookup become its branch's, otherwise both stay; a heaviest head, and the lowest of the heaviest, stays one |
| BlockChain.HeadStaysLowest | core/blockchain.go:961-968 | if no block was heavier than the head, and none as heavy lower, the same holds of the winner of head and newcomer |
| BlockChain.MakeHead | core/blockchain.go:969-991 | after a reorganisation if needed, the block's entries and its index entry complete its branch |
| BlockChain.Reorg | core/blockchain.go:1246-1340 | index and lookup move from the old head's branch to the new head's, exactly |
| BlockChain.FindFork | core/blockchain.go:1273-1313 | both walks meet at the common ancestor, having collected exactly the blocks above it; the invalid-chain errors cannot occur |
| BlockChain.Reduce | core/blockchain.go:1276-1286 | walking down from a head collects exactly the blocks above the given height |
| BlockChain.InsertChain | core/blockchain.go:1325-1333 | the new blocks are indexed at their numbers and their transactions looked up; of the index nothing else changes |
| BlockChain.Difference | core/blockchain.go:1334-1335 | TxDifference: what is in the first list and not in the second |
| BlockChain.DropOld | core/blockchain.go:1334-1340 | exactly the transactions only the old branch had lose their entry |
| BlockChain.LookupRerouted | core/blockchain.go:1325-1340 | inserting the new branch and deleting what only the old one had gives the exact lookup of the new head |
| BlockChain.IndexRerouted | core/blockchain.go:1325-1333 | writing the blocks above the fork gives the new head's index |
| BmtChunk.ConcurrentEqualsReference | bmt/bmt.go:440-545 | for 2^d full double segments, every interleaving of the goroutines is finite, delivers at most one result, and once nothing can step has delivered exactly the reference hash and returned a clean tree with even toggles |
| BmtChunk.HashChunk | bmt/bmt.go:292-372 | one Write of a chunk of 2^k segments, k at least 2: the tree for that count has depth k-1, the double segments are those Write pushes, and every run of the goroutines that cannot be continued has delivered what the reference hasher for that count returns for the chunk |
| BmtChunk.HashSmall | bmt/bmt.go:292-372 | the same for chunks of one or two segments, which are hashed without goroutines |
| BmtTree.EveryInterleaving | bmt/bmt.go:292-318 | every run delivers at most the root's value, and a run that cannot be continued has delivered it and released the tree |
| BmtTree.StepKeeps | bmt/bmt.go:440-545 | every step of any goroutine keeps the invariant |
| BmtTree.StepDecreases | bmt/bmt.go:461-492 | every step lowers the measure, so no run is infinite |
| BmtTree.Progress | bmt/bmt.go:292-318 | until the tree is released some goroutine can step: nothing deadlocks |
| BmtTree.ToggleKeeps | bmt/bmt.go:469-471 | the first arrival at a node leaves and the second goes on |
| BmtTree.CombineKeeps | bmt/bmt.go:472-491 | the second arrival hashes both sides, which is the value of the node's subtree, and moves up or delivers it |
| BmtTree.StoreKeeps | bmt/bmt.go:464-468 | storing on one side of a node disturbs neither the other side nor another goroutine |
| BmtTree.FinaliseKeeps | bmt/bmt.go:528-545 | marking the last path clears nothing that was already stored |
| BmtTree.ReleaseKeeps | bmt/bmt.go:423-438 | releasing leaves the flags as in a new tree |
| BmtTree.ToggleWorks | bmt/bmt.go:507-509 | an even counter tells the first arrival from the second exactly if it is not negative |
| BmtTree.ToggleWraps | bmt/bmt.go:507-509 | the k-th chunk of a tree finds a working toggle exactly if k mod 2^31 is below 2^30: the counter is 2k for the first 2^30 chunks, and the next one finds the least 32-bit number, from which both arrivals go on |
| BmtTree.CounterGoesRound | bmt/bmt.go:507-509 | the counter after k chunks: it goes round every 2^31 chunks, half of the time through negative numbers |
| BmtTree.WrongResult | bmt/bmt.go:461-492 | from a negative counter there is a run that delivers the hash of one half alone, after which the other goroutine is left waiting and nothing can step |
| BmtTree.FinishedReturned | bmt/bmt.go:423-438 | once the result is out every toggle has been taken twice and every flag is clean |
| BmtChunk.WriteChunk | bmt/bmt.go:333-372 | one Write of any length, cut at the capacity: every full double segment but the last is pushed, in order, and with the rest kept they are the bytes written |
| BmtChunk.TreeDepth | bmt/bmt.go:519-524 | the least depth whose tree holds the segments |
| BmtChunk.SumSingle | bmt/bmt.go:292-318 | a chunk of at most two segments is hashed directly and the single node goes back as it came |
| BmtChunk.SubtreeHash | bmt/bmt.go:461-492 | the value of a perfect subtree is the reference hash of the bytes under it |
| RefHasher.Hasher.constructor | bmt/bmt_r.go:39-55 | the span is a power-of-two number of segments at least half the capacity |
| RefHasher.Hasher.Hash | bmt/bmt_r.go:59-65 | hashes the input, cut at the capacity: a single segment directly, a longer input to the root of pairing its segments up level by level from the bottom, an odd last node being carried up as it is |
| RefHasher.Hasher.Rec | bmt/bmt_r.go:67-85 | from any span that is large enough the recursion ends with that root, and the shared hasher is reset |
| RefHasher.MerkleIsRoot | bmt/bmt_r.go:67-85 | splitting from the top at the largest span gives the same hash as pairing up the segments from the bottom, for every input longer than a segment |
| RefHasher.RootSplits | bmt/bmt_r.go:67-85 | the root over a full left half and any right half no larger is the hash of both roots |
| RefHasher.HashWithBoth | bmt/bmt_r.go:39-85 | hashers for any two segment counts agree on every input that fits both |
| RefHasher.SpanUnique | bmt/bmt_r.go:71-73 | only one span is shorter than the input and at least half of it |
| Feed.Feed.Send | event/feed.go:129-190 | however sends, blocking, subscriptions and cancellations interleave: every case that stays got the value exactly once, none twice, nothing else was delivered, nsent counts the deliveries, and a channel loses no more cases than cancellations of it were waiting or came in meanwhile |
| Feed.Feed.ServeAll | event/feed.go:154-182 | the active prefix is exactly the cases not yet served and the rest those served; every round shortens the list or the prefix |
| Feed.Feed.TryAll | event/feed.go:156-165 | the fast path serves some of the active cases, each once |
| Feed.Feed.Select | event/feed.go:169-181 | a blocked Send serves one case or takes one cancellation, and either way gets shorter |
| Feed.Feed.Drop | event/feed.go:171-177 | a cancellation during a Send removes exactly one case of its channel and shrinks the prefix exactly if the case was active |
| Feed.Feed.Deliver | event/feed.go:178-181 | the value set on the chosen case arrives on its channel, and exactly that case leaves the active prefix |
| Feed.Feed.SetSend | event/feed.go:146-149 | the value is set on every case but the one for cancellations |
| Feed.Feed.Begin | event/feed.go:133-149 | a Send starts from all cases and the whole inbox, each carrying the value |
| Feed.Feed.Subscribe | event/feed.go:73-93 | a new case for the channel goes last into the inbox and nothing else changes |
| Feed.Feed.StartRemove | event/feed.go:104-115 | a cancellation takes its channel out of the inbox, or waits and then is sure to find it among the cases |
| Feed.Feed.FinishRemove | event/feed.go:117-124 | between Sends a waiting cancellation finds and removes its case |
| Feed.Feed.Run | event/feed.go:73-190 | any sequence of calls keeps the feed sound, and the counts returned add up to the deliveries |
| Feed.Find | event/feed.go:213-220 | the first case on the channel, -1 exactly if there is none |
| Feed.DeactivateKeeps | event/feed.go:228-232 | swapping a served case to the end of the prefix keeps served and unserved apart |
| Feed.DeleteKeeps | event/feed.go:223-225 | deleting a case shifts the rest and keeps served and unserved apart |
| Feed.AccountTaken | event/feed.go:171-177 | every case belongs to a live subscription or a pending cancellation, also after one is taken |
| RandSelect.WeightedRandomSelect.SetWeight | les/randselect.go:54-73 | the set of weights changes at this item alone; sums, counts and index stay right, also under a new root |
| RandSelect.WeightedRandomSelect.Run | les/randselect.go:54-73 | after any sequence of updates the set holds what they amount to |
| RandSelect.WeightedRandomSelect.Choose | les/randselect.go:79-94 | for any random numbers: every turn draws the item its first number falls on, the last turn takes its item and no earlier one does, by the second number if the item has become lighter; afterwards every item drawn has the weight it had when it was drawn and the others their old one; nothing is chosen only if the set is empty; terminates because every retry lowers the sum |
| RandSelect.WeightedRandomSelect.TryOne | les/randselect.go:83-92 | one turn draws the item its first number falls on and returns it exactly if it has not become lighter or the second number is below its weight; else the sum drops |
| RandSelect.WeightedRandomSelect.Draw | les/randselect.go:84-86 | a value below the sum falls on an item of the set, with its stored weight |
| RandSelect.WeightedRandomSelect.Grow | les/randselect.go:62-68 | under a new root every item keeps its slot and its weight |
| RandSelect.WrsNode.Insert | les/randselect.go:107-131 | a free slot takes the item and no other slot changes |
| RandSelect.WrsNode.FindBranch | les/randselect.go:108-114 | a node that is not full has a branch with room, so the search never runs out |
| RandSelect.WrsNode.SetWeight | les/randselect.go:135-156 | the slot takes the new weight or is freed, no other changes, and the difference is returned |
| RandSelect.WrsNode.Choose | les/randselect.go:159-170 | finds the slot a value falls into; the search never runs out |
| WeightTree.ItemShare | les/randselect.go:159-170 | exactly as many of the values below the sum pick an item as it weighs |
| WeightTree.TakenShare | les/randselect.go:83-92 | of all pairs of random values the share that returns an item is the smaller of its current and its stored weight over the sum, so an item that became lighter has the chance its current weight gives it |
| WeightTree.TurnChance | les/randselect.go:83-92 | for every item and every turn of a selection the share of the pairs of random numbers that return the item is the smaller of its current and its stored weight over the sum |
| WeightTree.OutcomeDrops | les/randselect.go:79-94 | by the acceptance test every item that was not taken had become lighter, and the one taken weighs something |
| WeightTree.ShareIsWeight | les/randselect.go:159-170 | exactly as many values fall into a slot as it weighs |
| WeightTree.SelectsOne | les/randselect.go:159-170 | a value falls into at most one slot |
| WeightTree.StoredOk | les/randselect.go:115-118 | adjusting a node's caches by the change below keeps sums and counts those of the slots |
| WeightTree.GrownOk | les/randselect.go:62-68 | the tree under a new root is the old row of slots followed by free ones |
| WeightTree.PassFull | les/randselect.go:108-114 | passing a full branch of a node with room, there is another branch |
| WeightTree.Locate | les/randselect.go:147-149 | dividing an index by the width of a branch finds the branch and the slot below it |
| ChainIndexer.Indexer.Run | core/chain_indexer.go:222-376 | over every interleaving of notifications, in any number, with signalled updates: exactly the sections below storedSections have a head, the head of section s is the block numbered (s+1)*sectionSize-1 and sectionSize parent links ahead of the one before, and no known section is left without a signal |
| ChainIndexer.Indexer.NewHead | core/chain_indexer.go:222-261 | a reorg keeps exactly the sections up to the fork and their heads; a head raises the known sections to exactly those with enough confirmations, if these are more |
| ChainIndexer.Indexer.Update | core/chain_indexer.go:277-339 | a section is processed exactly if one is known beyond the stored ones, the backend goes along and the headers read form a chain from the last head; it is recorded exactly if it was processed and everything before it is still there when the lock is retaken; else nothing is retried without a new signal |
| ChainIndexer.Indexer.ProcessSection | core/chain_indexer.go:347-376 | whatever happens to the index meanwhile, a head is returned exactly if the backend accepts reset and commit and every header read is there and the child of the one before; it is the section's last block by number and sectionSize parent links ahead of the start; a refused reset drops all sections |
| ChainIndexer.Indexer.SetValidSections | core/chain_indexer.go:411-423 | the count is stored and exactly the heads beyond it are removed |
| ChainIndexer.Indexer.SectionHead | core/chain_indexer.go:427-436 | the head of a recorded section, the empty hash for any other |
| ChainIndexer.Indexer.constructor | core/chain_indexer.go:403-408 | starts from the stored count |
| ChainIndexer.OneBranch | core/chain_indexer.go:277-376 | the recorded heads lie on one branch: any is a whole number of sections behind any later one |
| ChainIndexer.ConfirmedBounds | core/chain_indexer.go:241-259 | the sections called confirmed have their confirmations, and one more would not have them |
| Distributor.Requests.Run | les/distributor.go:114-285 | over every run before shutdown the queue is sorted and without repetition, every queueing has one outcome or is still queued, and queued requests imply a signal on its way |
| Distributor.Requests.Queue | les/distributor.go:233-260 | a new request goes last with the next number, a resent one back to its place |
| Distributor.Position | les/distributor.go:242-251 | the place after all smaller and before all greater numbers |
| Distributor.Requests.NextRequest | les/distributor.go:178-227 | drops exactly the leading requests nobody can serve; the pair it picks has the least wait and is the first request its peer can serve; nothing is picked only if nothing is left |
| Distributor.Scan | les/distributor.go:191-220 | after one pass every peer stands with the first request it can serve, and the leading unservable requests are known |
| Distributor.Ask | les/distributor.go:195-212 | a peer is counted for the first request it can serve and for no later one; the shortest wait is kept |
| Distributor.Pick | les/distributor.go:222-226 | a peer that can be sent to at once if there is any, else one with the shortest wait |
| Distributor.Requests.SendNext | les/distributor.go:131-141 | a sent request was the first its peer could serve and needs no wait; queue and outcomes afterwards are exactly those without it and the leading unservable ones; if none is sent, every able peer needs at least the wait returned |
| Distributor.Requests.Loop | les/distributor.go:126-159 | ends with an empty queue, or with a signal on its way after a positive wait no longer than the cap or any peer's; every request that left was sent in some round to a ready peer for which it came first, or closed in front with nobody to serve it, and has that one new outcome, the others none |
| Distributor.LeavesWhenDue | les/distributor.go:131-141 | in one round a request stays as it is or leaves with one outcome, for cause |
| Distributor.OneRound | les/distributor.go:131-141 | one more round adds to the fate of every request only what is due in it |
| Distributor.Requests.Cancel | les/distributor.go:265-276 | takes back exactly a request that is still queued, with its channel closed |
| Distributor.Requests.Settle | les/distributor.go:279-285 | a request leaves the queue with exactly one outcome |
| IntrinsicGas.Compute | core/state_transition.go:79-109 | the charge, or out of gas exactly if it does not fit into 64 bits; no step overflows |
| StateTransition.GasPool.AddGas | core/gaspool.go:29-35 | adds; the panic above 64 bits is ruled out at every call |
| StateTransition.GasPool.SubGas | core/gaspool.go:39-45 | subtracts exactly if there is enough |
| StateTransition.Transition.BuyGas | core/state_transition.go:152-165 | pays for all the gas from balance and pool, or names the reason and changes nothing |
| StateTransition.Transition.PreCheck | core/state_transition.go:167-178 | lets a message in exactly if nonce, balance and pool allow it |
| StateTransition.Transition.Execute | core/state_transition.go:190-214 | the intrinsic gas is paid and the run starts from the paid-for state, or the gas does not suffice |
| StateTransition.Transition.RefundGas | core/state_transition.go:230-245 | refunds the most that exceeds neither the counter nor half of the gas used, and returns the rest to sender and pool without overflow |
| StateTransition.Transition.TransitionDb | core/state_transition.go:183-228 | fails exactly if the message is not let in, cannot pay its intrinsic gas or its value, in this order; unless it fails, the run starts with all gas paid for and, for a call, the nonce taken; afterwards exactly the gas used is missing from the pool, the sender has got back the price of the rest and the coinbase has received the price of the gas used |
| StateTransition.OnlyTheRun | core/state_transition.go:152-245 | a message changes the sum of all balances by what its run does and by nothing else |
| StateTransition.StateDB.Finalise | core/state/statedb.go:534-558 | exactly the destroyed accounts are gone, with what they held |
| StateTransition.LostNothing | core/state_transition.go:183-245 | finalisation destroys nothing exactly if what is destroyed held nothing after the run and neither fee nor refund goes to it |
| StateTransition.OnlyTheLost | core/state_processor.go:95-105 | if the run only moves balances, exactly what the destroyed accounts hold at the end goes missing |
| StateTransition.KeptIffPaidToTheLiving | core/state_processor.go:55-78 | over any number of transactions the sum never grows, and is kept exactly if each pays only accounts that survive it |
| StateTransition.FeeLost | core/state_processor.go:55-122 | a block with a coinbase that destroys itself in favour of another account: the run moves balances only, and the fee is deleted |
| StateTransition.NoReplay | core/state_transition.go:167-213 | a transaction that was applied in a block is refused for its nonce when it comes again, unless its sender was destroyed in between |
| StateTransition.NonceTaken | core/state_transition.go:190-213 | an applied message takes its sender's nonce and lowers no nonce but of the accounts it destroys |
| StateTransition.Process | core/state_processor.go:55-78 | fails exactly if some transaction does; otherwise world and gas are those of applying the transactions one by one, gas used and gas left make up the limit and receipts carry the running totals; with a virtual machine that only moves balances their sum never grows, and is kept exactly if no transaction pays an account destroyed in it; with a virtual machine that lowers no nonce no two transactions of a sender use the same nonce unless the sender was destroyed in between |
| StateTransition.ApplyTransaction | core/state_processor.go:84-122 | fails exactly if the sender cannot be told or the message fails; else the receipt carries the transaction's gas, the running total, and whether its run ended in an error, and the destroyed accounts are gone; the sum of balances is kept exactly if they hold nothing after the run, the coinbase is none of them unless gas is free, nor the sender unless nothing is refunded |
| StateTransition.SetReceiptsData | core/blockchain.go:737-772 | fills every receipt, or none if the counts differ; the logs of the block are numbered from zero on without a gap, keep their contents and carry their transaction |
| StateTransition.LogsNumbered | core/blockchain.go:761-769 | over any number of receipts the log indices run on from zero |
| StateTransition.ReceiptsRecovered | core/blockchain.go:745-760 | from stored running totals every receipt's own gas and transaction come back as they were |
| Ledger.WealthUpdate | core/state_transition.go:162-163 | changing one balance changes the sum of all by as much |
| Ledger.WealthWithout | core/state_processor.go:95-105 | deleting accounts takes exactly what they held out of the sum |

## Left out

- TxPool.Pool.Reset: takes the transactions to reinject as an argument, in any number and order, instead of walking both branches for them as core/tx_pool.go:355-397 does; contiguity is claimed only if there are none, because a reinjected transaction that is rejected can leave a gap.
- TxPool.Pool.Expire: which accounts have been idle for too long is an argument; heartbeat times are not modelled.
- PricedList.DistinctDrop: that the heap lists a remote transaction twice is a condition on the heap, not on the calls that lead to it.
- TxPool.Pool.CapQueue: visits remote accounts in any order rather than by heartbeat.
- TxPool.Pool.Equalize: the longest account comes first exactly; the float32 priorities of the source's priority queue round above 2^24.
- Pool nonces are unbounded: the wrap-around of the account nonce at 2^64 is not modelled.
- The pool holds its lists as values; that the list objects of two accounts are not aliased is thereby taken for granted. The classes TxList and SortedMap show that the objects behave as those values do.
- The pool's journal, metrics, events and its status queries.
- PricedList: the stales counter is kept, but nothing is claimed about its value; membership in the heap is.
- HeaderChain.Chain.WriteHeader: number and parent of the header have to fit, which the caller's validation guarantees; the 64-bit wrap of a number is modelled only where the parent of a header numbered zero is looked up.
- Getters of the header chain that only read a cache in front of the database and have no row above; Rollback, which moves heads without touching the index.
- BlockChain.Chain.WriteBlockWithState: state commit, trie garbage collection, receipts, preimages, future blocks and fast sync; the writes of one call happen together or not at all.
- BlockChain.Chain.Run: no transaction is repeated on one branch, which nonces rule out.
- BlockChain.Reorg: events and logs of the abandoned branch.
- BmtChunk.WriteChunk: one write on a new hasher; several writes, and the slice aliasing between them.
- BmtChunk.HashChunk: chunks of a power of two of full segments; the unbalanced path that shorter chunks take through a tree of more than one leaf.
- BmtTree: a goroutine's stores and toggles are single steps; the Go memory model's guarantees for the atomic counter are taken for granted. The tree pool, ReadFrom and the length prefix of Sum.
- Feed.Feed.Subscribe: element types and the panics for a wrong one; a subscription cancels at most once, as its sync.Once guarantees.
- RandSelect: weights are unbounded and not negative; the 64-bit overflow of a sum of weights. That the random source is uniform: it is any function that stays below its bound, and what is proved is how many values pick each item.
- RandSelect.WeightedRandomSelect.Choose: an item's current weight is any function of the draw; the share of the random numbers that return an item is stated for each turn.
- ChainIndexer.Indexer.Update: child indexers, the cascaded head and AddKnownSectionHead; throttling and logging; when the backend refuses a reset, all sections are dropped in one step.
- ChainIndexer.Indexer.ProcessSection: what the backend does with the headers; the chain may be another one whenever a header is read, so what is read is an argument.
- Distributor: requests go by their number, so their objects and channels are entries of a log of outcomes; peers and callbacks answer the same throughout one call of nextRequest; the weights among peers that can be sent to at once, one of which is picked. Leading requests nobody can serve are closed after the pass over the queue, not during it, which no one can observe under the lock. Shutdown.
- Distributor.Requests.Queue: a request is queued again only after it has left the queue, which is when its senders resend it.
- StateTransition: the virtual machine is any function that returns at most the gas it got; conservation over a block assumes that it only moves balances, which self-destruction in favour of the destroyed account does not. Account nonces are unbounded. Code and storage, the deletion of empty accounts, which hold nothing, block rewards, logs and blooms.
- StateTransition.SetReceiptsData: contract addresses, and block number and hash of logs.
- Accounts, wallets, consensus engines, networking, the database and the trie, RLP and signatures.
