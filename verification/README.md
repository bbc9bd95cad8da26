# A verified model of the babobook matching engine

This project models, in Dafny 4.11, the babobook limit-order-book engine, the Liquibook
baseline it is compared with, and the two benchmark adapters, and proves what the engine's
design relies on. `dafny verify dfyconfig.toml` checks all of it.

The model has layers (file names in parentheses); each exposes a sequence or a map, and the
layers above it never look at pointers.

- **Storage** (`Layout`, `Pool`). A PIN node is an array of slots with two linked lists, used
  and free, threaded through one array of links. The allocator pool hands out fresh chunks in
  order and released chunks first.
- **Levels** (`RedBlack`, `LevelTree`). One side's price levels: a red-black tree with parent
  links and a thread list over the same levels. `RedBlack` reasons about trees with a hole;
  `LevelTree` does the pointer writes of insertion, removal and both fixups.
- **One side** (`Items`, `PinChain`, `Blocks`, `Queues`, `Places`, `Snapshots`, `NarbTree`). The
  chain of PIN nodes, the level descriptors and the id index. Everything the descriptors and
  the index say follows from the flattened chain, and the whole structure refines one list
  sorted by price with arrival order inside a price (`NarbTree.Entries`).
- **The engine** (`Orders`, `Matching`, `Books`, `BookLaws`, `Ledgers`, `Fates`, `CallEffects`,
  `MatchingBook`). `Books` is the engine as a state machine over four ranked lists; `MatchingBook` is
  the class over four trees, and every method of it is proved to do what the state machine does.
  `BookLaws` and `Ledgers` prove what holds over every run. `Fates` and `CallEffects` say what each
  call does in the numbers a caller sees, without the functions that the state machine is made of.
- **Liquibook** (`LiquiOrders`, `LiquiMatching`, `LiquiAon`, `LiquiWraps`, `LiquiSync`, `LiquiSteps`,
  `LiquiServes`, `Liquibook`, `LiquiRuns`; `LiquiRows`, `LiquiDepth`, `LiquiTrace`). The book with its
  own all-or-none algorithm, deferred matches and callbacks, and the incremental depth with the live
  orders it stands for. `LiquiWraps` and `LiquiRuns` hold what happens when its sums wrap,
  `LiquiServes` when its orders trade.
- **The comparison** (`Adapters`, `Equivalence`, `ReportLaws`, `Engines`). Both adapters as state
  machines and as classes, the theorem that they emit the same reports, and what the reports say.

Main results:

1. **The two engines agree.** For every sequence of new (limit, immediate or not), cancel and
   modify messages with 32-bit ids, quantities and non-zero prices in which no new order reuses a
   resting id, both adapters push the same reports, and afterwards answer best bid, best ask and
   depth at any price alike (`Equivalence.EnginesAgree`; on the objects themselves,
   `Engines.Deliver` and `Engines.OnBatch`). What they push is said field by field, in terms of the
   message and of the orders that rested before it (`ReportLaws.NewTells`, `CancelTells`, `ModifyTells`).
2. **A side is a ranked queue.** `Insert` puts an order behind all of equal or better price,
   `Erase` removes exactly the named order, through node-to-node cascades, level creation and
   level removal (`NarbTrees.NarbTree.Insert`, `Erase`, `MakeRoom`).
3. **The tree stays red-black** with the thread list as its in-order sequence
   (`LevelTrees.LevelTree.NeighborAwareInsert`, `EraseLevel`).
4. **Runs are safe, and no order is lost.** After every call every parked buy stop is above the market
   price and every parked sell stop below it, crossing orders include an all-or-none order, resting
   all-or-none orders are untouched, and each order's fills are what the listener was told
   (`BookLaws.RunsKeep`, `CallEffects.ReachableStopsWait`, `Ledgers.ReachableSettled`). Whatever the
   run, an accepted order that no call names is parked untouched, or what it had open is what was told
   to be traded under its id plus what rests on its own side; only market and immediate orders, which
   may not rest, end with less (`CallEffects.Accounted`). Each call has exactly its effect: `CallEffects.AddEffect`, `CancelEffect`, `ReplaceMoves`, `ReplaceResizes`,
   `ReplaceRemoves`, `ReplaceRefused`, `SetPriceEffect`.
5. **All or none means that** in babobook always (`Matching.AonIsAllOrNothing`), and in Liquibook as
   long as no quantity is above 2^31: that cap is exact (`LiquiWraps.CapExact`), and a caller who keeps
   it never leaves it (`Liquibook.OrderBook.SmallOrdersSafe`). Above it an order can be left filled in
   part, dropped from the book with something open, or matched through an entry that the code has
   erased (`LiquiRuns.OneShortRun`, `DroppedRun`, `UndefinedRun`). What the book does is proved for every
   input on which the code reads no erased entry, and the book's methods say exactly when that is
   (`Liquibook.OrderBook.MatchAonOrder`, `Add`, `LiquiAons.UndefinedReadsErased`). Below the cap an
   all-or-none order trades with ordinary orders exactly if they suffice for it, and none stays passed
   over that an ordinary order come to rest would fill (`LiquiServes.AonTakes`, `JoinsServes`).
6. **Liquibook's depth** shows the best rows of one sorted list, and its change stamps miss no
   update (`LiquiDepth.Depth`). Over every run the rows are the live orders added up price by
   price, until an order is closed that its level does not cover; what that call leaves behind is said
   too (`LiquiTraces.Replay`).

Capacity of a PIN node, size of the depth and chunks per block are parameters; the hop bound is
the source's 16. A side of the book is a parameter of the tree. Identifiers and quantities are
naturals; the 32-bit sums the engines keep (level quantity, fill cost, depth quantity, the sums of
Liquibook's all-or-none matching, a modified order's quantity) wrap explicitly.

Where the code and its documentation differ, the model follows the code:

- `libs/liquibook/include/book/depth.h:128-132` documents a null result for a price that is not
  found, and line 307 says such a change is ignored. The code returns the end of the side's half
  of the array, which for bids is the first ask level: the best ask, or a blank level if there are
  no asks. `LiquiDepth.Depth.ChangeQtyOrder` says exactly when such a change has no effect: when
  the difference is zero (`MissHitsBestAsk` and `MissHitsBlank` are sequences of calls that show both).
- `libs/liquibook/include/book/depth_level.h:147-170` takes a level quantity below an order's for an
  error of the caller. The quantity is a 32-bit sum, so closing a live order can throw; it does so
  exactly if the order is not the last at its price and the wrapped sum there is less than its
  quantity (`LiquiTraces.CloseExact`; `CloseTooLow` is a sequence of calls that throws).
- An all-or-none order of Liquibook can be left filled in part: the deferred quantity is a 32-bit
  sum (`libs/liquibook/include/book/order_book.h:802`). `LiquiRuns.HalfFilledRun` and `OneShortRun`
  are calls that lead there. After such a try the code goes on: an all-or-none entry as large as the
  order was is erased whatever it has left, although lines 848-850 assert that it has traded in full
  (`LiquiWraps.LastIsDropped`, `LiquiRuns.DroppedRun`).
- Growing an order adds to its quantity in 32 bits (`libs/babobook/include/book/simple_order.h:184-189`),
  which can leave it on the book with nothing open. `BookLaws.ReplaceExact` says exactly when;
  `GrowthEmpties` is an order and a call.
- `libs/babobook/include/data_structures/narb_tree.h:197-199` promises that `validate_rb` accepts every
  valid tree. It rejects a valid tree with a level at price 0 or 2^64 - 1, and only such trees
  (`LevelTrees.LevelTree.ValidateRb`; `NarbTrees.ZeroPriceRejected` builds one). The book itself never
  inserts at price zero.
- A trade report carries the cost divided by the quantity as its price. The cost is a 32-bit
  product, so the report shows the maker's price exactly when the true product is below 2^32
  (`Equivalence.PriceExact`, with `PriceLost` as an input). Both adapters
  deviate alike, so the streams still agree.

## Model

| member | source | states |
|---|---|---|
| Layout.PinNode.constructor | libs/babobook/include/data_structures/pin_node.h:36-41 | a new node has no order and every slot is free |
| Layout.PinNode.Append | libs/babobook/include/data_structures/pin_node.h:61-66 | the order joins the used list at the end in a slot that was free; no other slot, and no other order, moves |
| Layout.PinNode.Prepend | libs/babobook/include/data_structures/pin_node.h:68-73 | the order joins the used list at the front; the rest of the row stays in its slots |
| Layout.PinNode.InsertAfter | libs/babobook/include/data_structures/pin_node.h:75-80 | the order joins the used list right behind the slot `ref`; the rest of the row stays in its slots |
| Layout.PinNode.Erase | libs/babobook/include/data_structures/pin_node.h:82-88 | exactly the slot `s` leaves the used list and heads the free list; every other payload stays where it is |
| Layout.SpliceThreads | libs/babobook/include/data_structures/pin_node.h:124-131 | the link writes of a splice thread the used list with the new slot at its position, for every list and position |
| Layout.BypassThreads | libs/babobook/include/data_structures/pin_node.h:82-88 | the link writes of an erase thread the used list without the slot |
| Layout.SpliceKeepsFree | libs/babobook/include/data_structures/pin_node.h:91-131 | splicing a slot in leaves the free list threaded through the same array intact |
| Layout.PartitionCovers | libs/babobook/include/data_structures/pin_node.h:91-106 | every slot is on exactly one of the two lists: used if and only if not free |
| RedBlack.RotateStored | libs/babobook/include/data_structures/narb_tree.h:286-320 | the pointer writes of a rotation, either way and under any parent, store the rotated tree and keep its in-order sequence |
| RedBlack.InnerNephewFits | libs/babobook/include/data_structures/narb_tree.h:851-890 | rotating an inner red nephew up makes it an outer one |
| RedBlack.OuterNephewFits | libs/babobook/include/data_structures/narb_tree.h:858-896 | the last rotation of the fixup pays the deficit off |
| RedBlack.SeatedStored | libs/babobook/include/data_structures/narb_tree.h:805-822 | seating the successor in the place of a node with two children stores the tree with the successor there, colour and parents included |
| RedBlack.SuccessorKeeps | libs/babobook/include/data_structures/narb_tree.h:783-822 | taking the minimum of the right subtree out removes the first level of that subtree and nothing else |
| RedBlack.HeightBound | README.md:109-111 | a red-black tree of n levels has 2^height <= (n + 1)^2 |
| LevelTrees.LevelTree.LeftRotate | libs/babobook/include/data_structures/narb_tree.h:286-302 | rotates in place: same in-order sequence, links as the rotated tree demands |
| LevelTrees.LevelTree.RightRotate | libs/babobook/include/data_structures/narb_tree.h:304-320 | rotates in place: same in-order sequence, links as the rotated tree demands |
| LevelTrees.LevelTree.InsertRebalance | libs/babobook/include/data_structures/narb_tree.h:322-373 | from a red leaf in a valid tree the climb ends with a valid red-black tree over the same levels |
| LevelTrees.LevelTree.HoleBetween | libs/babobook/include/data_structures/narb_tree.h:376-398 | between any two thread neighbours the child slot that the insertion picks is empty and is the in-order place between them |
| LevelTrees.LevelTree.NeighborAwareInsert | libs/babobook/include/data_structures/narb_tree.h:375-419 | the level takes position k of the order; tree, threads and best pointer are valid again |
| LevelTrees.ThreadsInsert | libs/babobook/include/data_structures/narb_tree.h:400-403 | linking a level between its neighbours threads the order with that level inserted, still strictly ascending |
| LevelTrees.ThreadsRemove | libs/babobook/include/data_structures/narb_tree.h:749-764 | unlinking a level threads the order without it |
| LevelTrees.LevelTree.FindNeighbors | libs/babobook/include/data_structures/narb_tree.h:263-284 | returns the level at the price with its thread neighbours, or the neighbours between which the price belongs |
| LevelTrees.LevelTree.RbDeleteFixup | libs/babobook/include/data_structures/narb_tree.h:828-901 | from one black too few at any node the fixup ends with a valid red-black tree over the same levels |
| LevelTrees.LevelTree.RbDeleteNode | libs/babobook/include/data_structures/narb_tree.h:783-826 | takes exactly the level `z` out of the tree, leaving a valid red-black tree; no other level is replaced or copied |
| LevelTrees.LevelTree.EraseLevel | libs/babobook/include/data_structures/narb_tree.h:748-764 | the order loses exactly the level `z`; tree, threads and best pointer are valid again |
| LevelTrees.LevelTree.GetBest | libs/babobook/include/data_structures/narb_tree.h:244-248 | null exactly for an empty side, and otherwise the dearest bid level or the cheapest ask level |
| LevelTrees.LevelTree.RbCheck | libs/babobook/include/data_structures/narb_tree.h:903-917 | the recursive check returns the black height exactly for ordered, balanced subtrees without red pairs, and -1 for all others |
| LevelTrees.LevelTree.ValidateRb | libs/babobook/include/data_structures/narb_tree.h:919-925 | on every state the tree can reach, the check accepts if and only if no level has price 0 or 2^64 - 1 |
| NarbTrees.ZeroPriceRejected | libs/babobook/include/data_structures/narb_tree.h:903-925 | an order inserted into a new side at price zero makes a valid side whose tree the check rejects |
| LevelTrees.LevelTree.TreeIsLow | README.md:109-111 | reading the tree in order gives the thread list, and its height is at most 2 log2(n + 1) |
| LevelTrees.LevelTree.Clear | libs/babobook/include/data_structures/narb_tree.h:37-62 | releases every level, best to worst, each exactly once |
| PinChains.PinChain.NewAfter | libs/babobook/include/data_structures/narb_tree.h:588-611 | links a fresh empty node in behind a node of the chain |
| PinChains.PinChain.Drop | libs/babobook/include/data_structures/narb_tree.h:725-740 | unlinks exactly one node from the chain |
| PinChains.PinChain.Clear | libs/babobook/include/data_structures/narb_tree.h:37-62 | releases every node, front to back, each exactly once |
| Items.ConcatRelocate | libs/babobook/include/data_structures/narb_tree.h:664-679 | moving the last order of a node to the front of the next leaves the flattened list as it is, but for that order's place |
| Blocks.BlockConcat | libs/babobook/include/data_structures/narb_tree.h:523-555 | the summary of a level over a list is the combination of its summaries over any split of the list |
| Blocks.Contiguous | libs/babobook/include/data_structures/narb_tree.h:523-555 | between two orders of a level stand only orders of that level |
| Blocks.ConsistentInsert | libs/babobook/include/data_structures/narb_tree.h:541-555 | after an insertion every level descriptor has the right head, tail, count and quantity, and the index knows exactly the orders of the chain |
| Blocks.ConsistentRemove | libs/babobook/include/data_structures/narb_tree.h:699-744 | the descriptor updates of an erase give every level the right head, tail, count and quantity, and the index the right orders |
| Blocks.ConsistentMove | libs/babobook/include/data_structures/narb_tree.h:664-679 | after an order has moved to another slot the repaired descriptors and index are right for every level |
| Blocks.ConsistentResize | libs/babobook/include/book/matching_book.h:93-100 | after an order has changed size in place its level's quantity is right, modulo 2^32, and nothing else changes |
| NarbTrees.NarbTree.RelocateTailToHead | libs/babobook/include/data_structures/narb_tree.h:664-679 | one hop keeps the flattened sequence of orders and repairs index, heads and tails |
| NarbTrees.NarbTree.Ripple | libs/babobook/include/data_structures/narb_tree.h:650-661 | the hops, far end first, keep the flattened sequence and leave one free slot in the first node |
| NarbTrees.NarbTree.MakeRoom | libs/babobook/include/data_structures/narb_tree.h:630-662 | frees exactly the last slot of the full node, moves no order before it, keeps the flattened sequence, repairs index and levels, needs at most 17 hops and stays within its path array of 18 nodes |
| NarbTrees.NarbTree.ChainInsertAfter | libs/babobook/include/data_structures/narb_tree.h:587-628 | puts the order right behind its anchor, making room if the node is full |
| NarbTrees.NarbTree.ChainInsertHead | libs/babobook/include/data_structures/narb_tree.h:567-585 | puts the order in front of the whole chain |
| NarbTrees.NarbTree.PlaceOrder | libs/babobook/include/data_structures/narb_tree.h:522-555 | an order joins its level behind the level's tail, or a fresh level behind the tail of the next better one |
| NarbTrees.NarbTree.InsertNearBest | libs/babobook/include/data_structures/narb_tree.h:421-490 | each constant-time path answers as the full search and insertion would, or declines and changes nothing |
| Places.NeighborsUnique | libs/babobook/include/data_structures/narb_tree.h:421-490 | any two answers to a neighbour search at a price agree, so a shortcut that gives an answer gives the search's answer |
| NarbTrees.NarbTree.Insert | libs/babobook/include/data_structures/narb_tree.h:421-505 | on every reachable side the queue becomes the old queue with the order behind all orders of equal or better price and ahead of all others |
| NarbTrees.NarbTree.Erase | libs/babobook/include/data_structures/narb_tree.h:699-744 | the queue loses exactly the order with that id, every other order stays in its slot; an unknown id changes nothing |
| NarbTrees.NarbTree.FindOrder | libs/babobook/include/data_structures/narb_tree.h:139-144 | finds an order exactly if an order with that id rests on the side, and then its place |
| NarbTrees.NarbTree.GlobalNext | libs/babobook/include/data_structures/narb_tree.h:681-688 | the place after an order in the flattened chain |
| NarbTrees.NarbTree.GlobalPrev | libs/babobook/include/data_structures/narb_tree.h:690-697 | the place before an order in the flattened chain |
| NarbTrees.NarbTree.UpdateResting | libs/babobook/include/book/matching_book.h:161-173 | rewriting a resting order in place changes that order and its level's quantity and nothing else |
| NarbTrees.NarbTree.FillDepth | libs/babobook/include/book/matching_book.h:147-152 | walking the levels yields the first rows of the price-by-price aggregate of the queue |
| NarbTrees.NarbTree.BestIsFirst | libs/babobook/include/data_structures/narb_tree.h:245-248 | the price of the best level is the key of the first order of the queue |
| NarbTrees.NarbTree.Clear | libs/babobook/include/data_structures/narb_tree.h:37-62 | releases every node of the chain and every level exactly once and leaves a valid empty side |
| Places.DequeueIsRemove | libs/babobook/include/data_structures/narb_tree.h:699-744 | the id index is a bijection: removing the place it names is removing the order with that id from the queue |
| Places.CutIsPlace | libs/babobook/include/data_structures/narb_tree.h:522-555 | the place between better-or-equal and worse keys is the one the queue assigns |
| Snapshots.RowsAreLevels | libs/babobook/include/book/matching_book.h:126-152 | the rows read off the level descriptors are the aggregate of the queue |
| Snapshots.RowsOrdered | libs/babobook/include/book/matching_book.h:126-152 | the rows of a sorted queue are in strict order of price |
| Matching.PlanTotal | libs/babobook/include/book/matching_book.h:205-219 | the plan adds up to what regular matching would trade |
| Matching.PlanHolds | libs/babobook/include/book/matching_book.h:205-234 | when the plan is carried out every planned order still rests with at least the planned quantity, so the branch for a missing order is never taken |
| Matching.AonIsAllOrNothing | libs/babobook/include/book/matching_book.h:201-234 | planning and committing equals regular matching if that fills the order, and otherwise changes nothing |
| Matching.PriceTimePriority | libs/babobook/include/book/matching_book.h:183-198 | regular matching gives each maker its share in queue order: all but the last are filled completely, an all-or-none maker is filled completely or skipped for wanting more than was left, no maker beyond the limit trades, and every trade is at the maker's price |
| CallEffects.AllottedWithin | libs/babobook/include/book/matching_book.h:155-159 | in prices: a maker that trades is at or within the limit of the order, and if something of the order is left every maker within it has been served; a market order reaches all |
| CallEffects.MatchTakes | libs/babobook/include/book/matching_book.h:155-234 | against ordinary orders an incoming order takes all that is open within its limit, a market order all there is, and no more than it has open; an all-or-none order takes all or nothing |
| Fates.MatchParts | libs/babobook/include/book/matching_book.h:161-234 | every match, of whatever order, comes to parts of the other side: side, fills, what the order has left and the market price, which is that of the last trade, are told by them |
| Fates.SpotMeans | libs/babobook/include/book/matching_book.h:134-145 | an order that rests does so on its own side, ranked by its price, and one that is parked ranked by its stop; an id that is nowhere is not live |
| BookLaws.Conserved | libs/babobook/include/book/matching_book.h:161-198 | what the incoming order gains is what the resting orders lose and what the listener is told |
| BookLaws.Survivors | libs/babobook/include/book/matching_book.h:183-198 | the orders left on the side are the old ones in the old order, further filled but not done; all-or-none orders are untouched |
| BookLaws.Residue | libs/babobook/include/book/matching_book.h:183-198 | if something of an incoming order is left, whatever it still crosses is all-or-none |
| BookLaws.SubmitSound | libs/babobook/include/book/matching_book.h:134-145 | submitting keeps both sides sorted, ids unique, resting all-or-none orders untouched, and crossed pairs only with all-or-none orders |
| BookLaws.ProcessSound | libs/babobook/include/book/matching_book.h:257-283 | the cascade of stops ends with no parked stop triggered and everything else kept |
| CallEffects.ReachableStopsWait | libs/babobook/include/book/matching_book.h:257-283 | in numbers: after any run every parked buy stop is above the market price and every parked sell stop below it |
| CallEffects.CallStopsWait | libs/babobook/include/book/matching_book.h:33-119 | and so does every call, from any such state, leave them |
| CallEffects.RoundFires | libs/babobook/include/book/matching_book.h:257-283 | a round submits the buy stops at or below the market price, then the sell stops at or above it, each side in its order, and leaves the others parked |
| CallEffects.OneByOne | libs/babobook/include/book/matching_book.h:271-281 | the orders of a round are submitted one by one, each to the book that the one before has left |
| CallEffects.ReachedFires | libs/babobook/include/book/matching_book.h:257-283 | a stop that the market price has reached fires: what it had open is what is told to have been traded plus what rests |
| CallEffects.SetPriceEffect | libs/babobook/include/book/matching_book.h:115-119 | setting the market price fires the stops it has reached; if there is none nothing but the price changes |
| BookLaws.AddSound | libs/babobook/include/book/matching_book.h:33-49 | `add` keeps the book sound and leaves no triggered stop |
| CallEffects.AddEffect | libs/babobook/include/book/matching_book.h:33-49 | an order of quantity zero is rejected and changes nothing; a stop order not reached is accepted and parked, and nothing else changes; any other is accepted, meets the other side by limit and priority, and rests with what it has left if it may |
| BookLaws.CancelSound | libs/babobook/include/book/matching_book.h:51-68 | `cancel` keeps the book sound and leaves no triggered stop |
| CallEffects.CancelEffect | libs/babobook/include/book/matching_book.h:51-68 | exactly the order named leaves, resting or parked; all other entries of the four sides keep their order; the listener is told `Cancelled` if the id was live and `CancelRejected` if not |
| BookLaws.ReplaceSound | libs/babobook/include/book/matching_book.h:70-113 | `replace`, in place or moving, keeps the book sound and leaves no triggered stop |
| BookLaws.ReplaceExact | libs/babobook/include/book/matching_book.h:70-113 | a replacement, also one whose new quantity wraps, keeps the book sound if and only if the order moves, is taken out, or has something open after the wrap |
| CallEffects.ReplaceMoves | libs/babobook/include/book/matching_book.h:103-113 | a replacement with a new price: the listener is told it, with quantity and price cut to 32 bits; the order meets the other side first, and what is open under the new quantity is what is told to have been traded since plus what rests on its own side at the new price |
| CallEffects.ReplaceResizes | libs/babobook/include/book/matching_book.h:82-101 | a replacement at the same price: the order keeps its place with the new quantity, and nothing else changes |
| CallEffects.ReplaceRemoves | libs/babobook/include/book/matching_book.h:85-88 | a cut by all that is open takes exactly the order out |
| CallEffects.ReplaceRefused | libs/babobook/include/book/matching_book.h:70-80 | an id that does not rest, that of a parked stop included, is refused and nothing changes |
| CallEffects.ReplaceEvolves | libs/babobook/include/book/matching_book.h:70-113 | whatever the replacement, every other order only trades what is told under its id, or fires |
| BookLaws.GrowthEmpties | libs/babobook/include/book/simple_order.h:184-189 | the calls that leave an order resting with nothing open: an order of 2^32 - 1 grown by one unit |
| BookLaws.GrowthExact | libs/babobook/include/book/simple_order.h:184-189 | growing an order in place opens what is asked for if and only if its quantity stays below 2^32 |
| BookLaws.RunsKeep | libs/babobook/include/book/matching_book.h:33-119 | after any run of calls the book is sound and quiet: no parked stop is triggered |
| CallEffects.RunEvolves | libs/babobook/include/book/matching_book.h:33-283 | over any run, an order that no call names stays where it is and changes only by what is told to have been traded under its id, unless it was parked and fired |
| CallEffects.Accounted | libs/babobook/include/book/matching_book.h:33-283 | no accepted order is lost: after any run that does not name it, it is parked untouched, or what it had open is what is told to have been traded under its id plus what rests on its own side; market and immediate orders do not rest |
| BookLaws.ReachableUncrossed | libs/babobook/include/book/matching_book.h:134-198 | in every reachable state a crossing bid and ask include an all-or-none order, and resting all-or-none orders have filled nothing |
| BookLaws.PlainRunsNeverCross | libs/babobook/include/book/matching_book.h:33-119 | over runs without all-or-none orders the best bid is always below the best ask |
| Ledgers.MatchSquares | libs/babobook/include/book/matching_book.h:161-198 | matching enters every trade in the accounts of its two orders and in no other |
| Ledgers.RunsSettle | libs/babobook/include/book/matching_book.h:33-119 | every run keeps the fills of all live orders equal to what the listener was told of them |
| Ledgers.ReachableSettled | libs/babobook/include/book/matching_book.h:33-173 | after any run a resting order's filled quantity and cost are the totals told under its id since its acceptance, and filled + open is its quantity |
| MatchingBooks.MatchingBook.ExecuteTrade | libs/babobook/include/book/matching_book.h:161-173 | both orders record the fill, the level loses the quantity, the market price is the maker's, the listener is told once |
| MatchingBooks.MatchingBook.MatchRegularIncoming | libs/babobook/include/book/matching_book.h:183-198 | the loop over the chain, erasing as it goes, does what regular matching does to the queue |
| MatchingBooks.MatchingBook.MatchAonIncoming | libs/babobook/include/book/matching_book.h:201-234 | the two loops do what planning and committing do to the queue |
| MatchingBooks.MatchingBook.Submit | libs/babobook/include/book/matching_book.h:134-145 | matching and resting on the trees does what `Books.Submit` does to the ranked lists |
| MatchingBooks.MatchingBook.ProcessTriggered | libs/babobook/include/book/matching_book.h:257-283 | the loop ends, and ends in the state the rounds of firing lead to |
| MatchingBooks.MatchingBook.FireRound | libs/babobook/include/book/matching_book.h:257-283 | a round that fires anything leaves strictly fewer parked stops |
| MatchingBooks.MatchingBook.Add | libs/babobook/include/book/matching_book.h:33-49 | refines `Books.Add`: rejection of empty orders, parking of stops, matching and the cascade |
| MatchingBooks.MatchingBook.Cancel | libs/babobook/include/book/matching_book.h:51-68 | refines `Books.Cancel` over all four sides, with the rejection of unknown ids; `CallEffects.CancelEffect` says what that is |
| MatchingBooks.MatchingBook.Replace | libs/babobook/include/book/matching_book.h:70-113 | refines `Books.Replace`, which `CallEffects` describes: rejection, change in place (wrapped or not), removal when nothing is left, and repricing with the cascade |
| MatchingBooks.MatchingBook.SetMarketPrice | libs/babobook/include/book/matching_book.h:115-119 | refines `Books.SetMarketPrice`: the new price and the cascade it sets off |
| MatchingBooks.MatchingBook.Depth | libs/babobook/include/book/matching_book.h:126-132 | the first rows of the aggregates of both sides |
| LiquiOrders.Where | libs/liquibook/include/book/order_book.h:608-634 | position of an order object in a side |
| LiquiMatching.RegularIsTaken | libs/liquibook/include/book/order_book.h:720-790 | a pass takes a part from every entry it reaches, an all-or-none entry whole or not at all, never more than was asked |
| LiquiMatching.PassedOver | libs/liquibook/include/book/order_book.h:720-790 | the all-or-none orders deferred by a pass are all-or-none orders of the side and stay on it |
| LiquiMatching.ReduceSide | libs/liquibook/include/book/order_book.h:720-967 | whatever parts are taken, what is left of a side is sorted with every order once |
| LiquiMatching.ReduceWhole | libs/liquibook/include/book/order_book.h:720-967 | all-or-none orders taken whole or not at all leave those that stay untouched |
| LiquiMatching.FillsTouch | libs/liquibook/src/simple_order.cpp:101-111 | the fill callbacks of a match give every order object exactly its part, and complete exactly those that have nothing open |
| LiquiMatching.FillsCost | libs/liquibook/src/simple_order.cpp:101-111 | and add to its cost the 32-bit products of its parts and their prices |
| LiquiAons.WideIsFair | libs/liquibook/include/book/order_book.h:792-967 | with exact sums the walk of an all-or-none order trades exactly its open quantity or nothing, and takes all-or-none orders whole or not at all |
| LiquiServes.AonTakes | libs/liquibook/include/book/order_book.h:792-967 | where no sum wraps an all-or-none order trades against ordinary orders exactly if what they have open within its limit is as much as it has |
| LiquiServes.RegularTakes | libs/liquibook/include/book/order_book.h:720-790 | an ordinary order takes all that ordinary orders have open within its limit, and no more than it has |
| LiquiServes.RetryServes | libs/liquibook/include/book/order_book.h:677-704 | of the passed-over orders that are tried against ordinary orders, each that is left would find too little within its limit; others stay as they are |
| LiquiServes.JoinsServes | libs/liquibook/include/book/order_book.h:636-704 | when an ordinary order has come to rest among ordinary orders, no all-or-none order that it reaches is left that could be filled; quantities up to 2^31 |
| LiquiAons.AonIsFair | libs/liquibook/include/book/order_book.h:792-967 | with the 32-bit sums of the code limits and open quantities are always kept; where no sum on the way wraps it is all or nothing, no order is dropped and no erased entry is read; no sum wraps if the order makes at most 2^32 with each order of the side |
| LiquiWraps.CapExact | libs/liquibook/include/book/order_book.h:792-967 | every match of an all-or-none order with every side is all or nothing, drops no order and reads no erased entry, if and only if no quantity is above 2^31 |
| LiquiAons.NoneWrapsExact | libs/liquibook/include/book/order_book.h:802-900 | the code takes the steps of the algorithm with exact sums if and only if no entry looked at brings the deferred sum to 2^32 or more |
| LiquiWraps.OneShort | libs/liquibook/include/book/order_book.h:829-967 | the bound on the pair cannot be raised: for every quantity q from 3 to 2^31 + 1 there are four ordinary orders, each making at most 2^32 + 1 with q, that leave the all-or-none order one unit short |
| LiquiWraps.HalfFilled | libs/liquibook/include/book/order_book.h:841-967 | three orders against which an all-or-none order of 4294967295 is left half filled |
| LiquiWraps.LastIsDropped | libs/liquibook/include/book/order_book.h:826-853 | after a try that has traded in part, an all-or-none order as large as the incoming one gives the last 8 units and is erased from its side with 2147483650 open |
| LiquiWraps.ErasedIsRead | libs/liquibook/include/book/order_book.h:919-926 | an input for which a deferred order is looked at again after it has traded in full and has been erased |
| LiquiAons.UndefinedReadsErased | libs/liquibook/include/book/order_book.h:910-967 | wherever the walk is left undefined, the code looks at a deferred order that has traded in full and has been erased |
| Liquibook.OrderBook.CreateTrade | libs/liquibook/include/book/order_book.h:969-1017 | trades the smaller open quantity, and no more than the limit given, at the resting order's price, else the incoming one's, else the last; nothing if there is no price |
| Liquibook.OrderBook.MatchRegularOrder | libs/liquibook/include/book/order_book.h:720-790 | the loop over the multimap does what the pass does, deferring all-or-none orders that want more than is left |
| Liquibook.OrderBook.ProposeFills | libs/liquibook/include/book/order_book.h:919-946 | the first pass computes the proposals and the quantity found, in 32 bits |
| Liquibook.OrderBook.TryCreateDeferredTrades | libs/liquibook/include/book/order_book.h:910-967 | the deferred orders give what the two passes, in 32 bits, make them give; side, order and callbacks show exactly those parts |
| Liquibook.OrderBook.ExecuteFills | libs/liquibook/include/book/order_book.h:948-967 | the second pass executes the proposals in turn until what was found is traded |
| Liquibook.OrderBook.TakeWithRegular | libs/liquibook/include/book/order_book.h:868-893 | tries an ordinary entry together with the deferred orders, as one step of the walk does |
| Liquibook.OrderBook.TakeWithAon | libs/liquibook/include/book/order_book.h:826-853 | tries an all-or-none entry together with the deferred orders, as one step of the walk does |
| Liquibook.OrderBook.MatchAonOrder | libs/liquibook/include/book/order_book.h:792-908 | the loop walks as `Aon` does, further tries after a partial one included; the answer `ok` is true exactly if it reads no erased entry; what it takes respects limits, and if no sum wraps it is all or nothing for the order and for every all-or-none counterparty |
| Liquibook.OrderBook.MatchOrder | libs/liquibook/include/book/order_book.h:704-718 | if the match is defined, what is taken, dropped and left, the passed-over orders and the answer are those of `MatchOf`; the answer is true only if a fill is reported, and exactly then if no sum wraps |
| Liquibook.OrderBook.CheckDeferredAons | libs/liquibook/include/book/order_book.h:677-704 | if every match is defined, the passed-over orders are retried one after the other as `Retry` says, answer included; sides stay sorted and in step with the order objects; from safe sides all is defined and all-or-none orders stay untouched |
| Liquibook.OrderBook.AddOrder | libs/liquibook/include/book/order_book.h:636-675 | for every order: the call is defined exactly if `Joining` is, and then sides, remainder, callbacks, answer and dropped orders are its; a safe all-or-none order is always defined, trades all or nothing and leaves a safe book |
| Liquibook.OrderBook.Add | libs/liquibook/include/book/order_book.h:391-433 | if the call reads no erased entry, sides, events told, answer and dropped orders are those of `Outcomes` and `Joining`, and order objects and trackers agree; from a safe book a safe order is always defined, drops nothing and leads to a safe book, and the answer is true exactly if a fill was told |
| LiquiSteps.PlainOutcomes | libs/liquibook/include/book/order_book.h:636-790 | without all-or-none orders adding an order is the ordinary pass |
| LiquiSteps.OutcomeHeard | libs/liquibook/include/book/order_book.h:391-433 | the listener hears the acceptance or rejection first, then the fills, then the cancellation of what an immediate order has left |
| LiquiSteps.FillsHeard | libs/liquibook/include/book/order_book.h:1003-1017 | each part is heard as a fill of the two orders with its quantity and its 32-bit cost |
| Liquibook.OrderBook.SmallOrdersSafe | libs/liquibook/include/book/order_book.h:636-967 | if all orders are of at most 2^31 units every order that is added is safe |
| LiquiRuns.HalfFilledRun | libs/liquibook/include/book/order_book.h:841-967 | calls on the book object that leave an all-or-none bid resting half filled |
| LiquiRuns.OneShortRun | libs/liquibook/include/book/order_book.h:829-967 | for every q from 3 to 2^31 + 1, calls on the book object after which an all-or-none bid rests with one unit, although it makes at most 2^32 + 1 with each ask |
| LiquiRuns.DroppedRun | libs/liquibook/include/book/order_book.h:826-853 | calls after which an all-or-none ask is off the book with its order object still standing |
| Liquibook.OrderBook.Cancel | libs/liquibook/include/book/order_book.h:435-471 | removes exactly the order if it is on the market, cancels its object, and reports a rejection otherwise |
| Liquibook.OrderBook.FindOnMarket | libs/liquibook/include/book/order_book.h:608-634 | finds the entry of an order among those at its price if the side has one |
| LiquiRuns.UndefinedRun | libs/liquibook/include/book/order_book.h:910-967 | calls on the book object that lead there |
| Liquibook.OrderBook.StandsIfHeld | benchmark/adapters/liquibook_adapter.cpp:106-111 | an order object is resting by its own state exactly if a tracker on the book holds it, with the same open quantity, or the book has dropped it; a dropped order is on neither side |
| LiquiSync.MatchInStep | libs/liquibook/include/book/order_book.h:720-1017 | a match leaves trackers, and objects after the pending callbacks, with equal open quantities; objects of dropped orders stand |
| LiquiSync.BoundSplits | libs/liquibook/include/book/comparable_price.h:78-186 | a multimap puts an entry behind every entry that is not after it |
| Equivalence.AddSim | benchmark/adapters/babobook_adapter.cpp:125-141 | an order handed to both engines trades alike and leaves them related |
| Equivalence.RestsAlike | benchmark/adapters/liquibook_adapter.cpp:106-119 | an id rests on one engine exactly if the other engine's order object for it is resting |
| Equivalence.CancelSim | benchmark/adapters/babobook_adapter.cpp:143-155 | a cancelled order leaves both engines, with the same side and price to report |
| Equivalence.MsgSim | benchmark/adapters/liquibook_adapter.cpp:185-240 | one message yields identical reports from both adapters and leaves them related |
| ReportLaws.NewTells | benchmark/adapters/babobook_adapter.cpp:76-141 | the reports of a new order, field by field: its acknowledgement, a trade for each part taken of the other side with maker, quantity and price, and for an immediate order what it has left |
| ReportLaws.CancelTells | benchmark/adapters/babobook_adapter.cpp:143-155 | the report of a cancellation carries side and price of the order that rested, or is a rejection |
| ReportLaws.ModifyTells | benchmark/adapters/babobook_adapter.cpp:157-175 | the reports of a modification: trades of the new order with the side the old one has left, and the acknowledgement; or a rejection |
| ReportLaws.NewLeaves | benchmark/adapters/babobook_adapter.cpp:125-141 | after a new order its quantity is what was traded plus what rests, and every other order has only traded |
| ReportLaws.CancelLeaves | benchmark/adapters/babobook_adapter.cpp:143-155 | after a cancellation the order rests no more, and every other order is where it was |
| ReportLaws.ModifyLeaves | benchmark/adapters/babobook_adapter.cpp:157-175 | a modification leaves the new order in the place of the old one, the others having only traded; one that names no resting order changes nothing |
| ReportLaws.BothTell | benchmark/adapters/liquibook_adapter.cpp:185-239 | the adapter over Liquibook pushes the same reports |
| Equivalence.EnginesAgree | benchmark/adapters/babobook_adapter.cpp:125-203 | for every admissible sequence of new, cancel and modify messages both adapters emit identical report streams and then answer best bid, best ask and depth at every price alike |
| Equivalence.SameDepth | benchmark/adapters/liquibook_adapter.cpp:254-273 | summing a whole side and summing the entries equal to a price give the same depth |
| ReportLaws.BestTells | benchmark/adapters/babobook_adapter.cpp:177-185 | the best bid is the highest price at which one rests, the best ask the lowest |
| ReportLaws.DepthTells | benchmark/adapters/babobook_adapter.cpp:187-203 | the depth at a price is what the orders at that price have open |
| Equivalence.PriceExact | benchmark/adapters/babobook_adapter.cpp:76-87 | the price in a trade report is the maker's price if and only if quantity times price is below 2^32 |
| Equivalence.PriceLost | benchmark/adapters/babobook_adapter.cpp:76-87 | 65536 units traded at 65536 are reported at price 0 |
| Engines.BaboAdapter.OnNewOrder | benchmark/adapters/babobook_adapter.cpp:125-141 | pushes the acknowledgement, the trades and the cancel of an immediate order's remainder |
| Engines.BaboAdapter.OnCancel | benchmark/adapters/babobook_adapter.cpp:143-155 | pushes the acknowledgement with side and price of the order, or the rejection |
| Engines.BaboAdapter.OnModify | benchmark/adapters/babobook_adapter.cpp:157-174 | cancels and resubmits, pushing trades before the acknowledgement, or rejects |
| Engines.BaboAdapter.QueryBestBid | benchmark/adapters/babobook_adapter.cpp:177-180 | the price of the first bid of the queue, or none |
| Engines.BaboAdapter.QueryBestAsk | benchmark/adapters/babobook_adapter.cpp:182-185 | the price of the first ask of the queue, or none |
| Engines.BaboAdapter.QueryDepthAt | benchmark/adapters/babobook_adapter.cpp:187-206 | sums the open quantity at a price over the side |
| Engines.LiquiAdapter.OnNewOrder | benchmark/adapters/liquibook_adapter.cpp:185-204 | pushes what the state machine says and records the new order object under its id |
| Engines.LiquiAdapter.OnCancel | benchmark/adapters/liquibook_adapter.cpp:206-217 | pushes the acknowledgement or the rejection and takes the order object off the book |
| Engines.LiquiAdapter.OnModify | benchmark/adapters/liquibook_adapter.cpp:219-240 | replaces the order object of a resting id, or rejects |
| Engines.LiquiAdapter.QueryBestBid | benchmark/adapters/liquibook_adapter.cpp:242-246 | the price of the first bid of the multimap, or none |
| Engines.LiquiAdapter.QueryBestAsk | benchmark/adapters/liquibook_adapter.cpp:248-252 | the price of the first ask of the multimap, or none |
| Engines.LiquiAdapter.QueryDepthAt | benchmark/adapters/liquibook_adapter.cpp:254-273 | sums the run of entries equal to the price |
| Engines.Deliver | benchmark/adapters/babobook_adapter.cpp:208-217 | a message delivered to both adapters leaves their report streams equal and their books related |
| Engines.OnBatch | benchmark/adapters/babobook_adapter.cpp:208-215 | a batch of messages for two new adapters yields equal report streams and equal answers to every query |
| LiquiDepth.Depth.FindLevel | libs/liquibook/include/book/depth.h:378-438 | finds or makes the level of a price; a price that is nowhere yields the end of the side's half of the array, which for a bid is the first ask level |
| LiquiDepth.Depth.InsertLevelBefore | libs/liquibook/include/book/depth.h:442-480 | makes room for a price, saving a pushed-out level in the excess map and stamping every level that moved |
| LiquiDepth.Depth.EraseLevel | libs/liquibook/include/book/depth.h:483-543 | removes exactly one row, refilling the visible half from the best excess level, and stamps what changed |
| LiquiDepth.Depth.AddOrder | libs/liquibook/include/book/depth.h:222-237 | the sorted rows of the side gain the order; the other side, counts and order of rows are kept; changes are stamped |
| LiquiDepth.Depth.CloseOrder | libs/liquibook/include/book/depth.h:276-292 | the rows lose the order, and the row with its last order; a count or quantity found too low throws, the latter with the count already lowered; an absent bid is closed on the best ask |
| LiquiDepth.Depth.ChangeQtyOrder | libs/liquibook/include/book/depth.h:294-308 | the row of the price changes by the difference; for a bid price that is nowhere the first ask level is written, in use or not, so that the depth is unchanged, as documented, if and only if the difference is zero |
| LiquiDepth.MissHitsBestAsk | libs/liquibook/include/book/depth.h:294-308 | calls by which a change at an absent bid price alters the best ask |
| LiquiDepth.MissHitsBlank | libs/liquibook/include/book/depth.h:294-308 | calls by which it alters a level that is not in use |
| LiquiDepth.Depth.ReplaceOrder | libs/liquibook/include/book/depth.h:310-334 | a price change is an addition and a close with the close's answer, a quantity change one row's |
| LiquiRows.PushStamps | libs/liquibook/include/book/depth.h:442-480 | every visible level that an insertion changes carries a stamp newer than before |
| LiquiRows.PullStamps | libs/liquibook/include/book/depth.h:483-543 | every visible level that an erasure changes carries a stamp newer than before |
| LiquiTraces.RowsUnique | libs/liquibook/include/book/depth_level.h:136-170 | the live orders determine the rows: one row a price, with their number and their sum in 32 bits |
| LiquiTraces.AddAggregates | libs/liquibook/include/book/depth.h:222-237 | adding an order keeps the rows the sum of the live orders, price by price |
| LiquiTraces.CloseAggregates | libs/liquibook/include/book/depth.h:276-292 | closing a live order that its level covers keeps the rows the sum of the live orders |
| LiquiTraces.CloseTears | libs/liquibook/include/book/depth_level.h:147-170 | a close that throws has lowered the count and not the sum: the order no longer counts at its price, and its quantity is still in the sum there; all other rows are as they were |
| LiquiTraces.ResizeAggregates | libs/liquibook/include/book/depth.h:294-308 | changing the quantity of a live order keeps the rows the sum of the live orders |
| LiquiTraces.ReplaceAggregates | libs/liquibook/include/book/depth.h:310-334 | replacing a live order keeps the rows the sum of the live orders, or throws as the close would, with the new order already added and the old one half closed |
| LiquiTraces.CloseExact | libs/liquibook/include/book/depth_level.h:147-170 | closing a live order succeeds if and only if it is the last at its price or the wrapped sum there covers it |
| LiquiTraces.SumFits | libs/liquibook/include/book/depth_level.h:147-170 | it does if the quantities at its price make less than 2^32 |
| LiquiTraces.TooMuchAtAPrice | libs/liquibook/include/book/depth_level.h:147-170 | of two orders at a price either can be closed if and only if they make less than 2^32 |
| LiquiTraces.CloseTooLow | libs/liquibook/include/book/depth_level.h:147-170 | calls by which closing the first of two asks of 3000000000 throws |
| LiquiTraces.Replay | libs/liquibook/include/book/depth.h:222-334 | over every well-formed run of additions, closes, changes and replacements the rows of both sides are the live orders, up to the first operation that throws, which is the first that closes an order its level does not cover; it leaves that order half closed and the other side as it was |
| LiquiRows.CloseUndoesAdd | libs/liquibook/include/book/depth.h:222-292 | closing the order just added gives back the rows |
| Pool.AllocatorPool.Reserve | libs/babobook/include/memory/memory_pool.h:41-51 | after the call the chunk number is valid, with no block more than needed; old blocks are kept |
| Pool.AllocatorPool.Allocate | libs/babobook/include/memory/memory_pool.h:54-85 | hands out a chunk that is not in use: the last one released, or the first never used when none is free; every other chunk keeps its contents |
| Pool.AllocatorPool.Release | libs/babobook/include/memory/memory_pool.h:131-142 | the chunk leaves the live set and heads the free list; every other chunk keeps its contents |
| Pool.AllocatorPool.ReleaseAll | libs/babobook/include/memory/memory_pool.h:131-142 | releasing a list of live chunks lowers the live count by their number and leaves all others alone |
| Pool.AllocatorPool.Construct | libs/babobook/include/memory/memory_pool.h:60-84 | writing an object over the link of a live chunk disturbs no other chunk |
| Pool.AllocatorPool.HandedOut | libs/babobook/include/memory/memory_pool.h:41-142 | live and free chunks are disjoint and are together all chunks ever handed out |

## Left out

- LevelTrees.LevelTree: the links, colours and threads of the level descriptors are kept in maps
  from level to record owned by the tree, not in fields of the descriptors; reads and writes are the
  source's, one for one, but aliasing between descriptors of different trees is not modelled.
- PinChains.PinChain: the `next_node` and `prev_node` links of the nodes are kept in a map owned by
  the chain, and head, tail, count and quantity of the levels in a map owned by the side, likewise.
- NarbTrees.NarbTree.Get: the source returns a reference into the slot and the matcher writes through
  it; here the order is read with `Get` and written back with `UpdateResting`.
- NarbTrees.NarbTree.Clear: nodes and levels are released to the pools by listing them; the pool is
  verified on its own and is not wired into the tree. `Pool.AllocatorPool.ReleaseAll` says what
  releasing such a list does to the live count.
- NarbTrees.NarbTree.Insert: an id that already rests on the side is excluded; the source overwrites
  its index entry.
- NarbTrees.NarbTree.PlaceOrder: likewise.
- NarbTrees.NarbTree.InsertNearBest: likewise.
- BookLaws.AddSound: an added order must be untouched and its id not live, and its quantity and price
  must fit 32 bits, as the source's fields assume.
- BookLaws.ReplaceSound: the new quantity is added in signed 32 bits, whose overflow is undefined and
  left out; replacements after which nothing is open are excluded here, and `BookLaws.ReplaceExact`
  shows that they are exactly those that break the book.
- MatchingBooks.MatchingBook.Replace: likewise; what the pointer structures do with an order that rests
  with nothing open is not modelled.
- CallEffects.MatchTakes: is about ordinary resting orders; `Matching.PriceTimePriority` and
  `CallEffects.AllottedWithin` cover all-or-none ones.
- Ledgers.ReachableSettled: added orders must have cost zero, as freshly built orders do.
- Equivalence.EnginesAgree: agreement is proved for the messages the adapters can send; all-or-none
  and stop orders, on which the engines differ by design, are covered by each engine's own laws.
- Equivalence.Admissible: a new order object for each order, with an identifier of its own, stands for
  Liquibook's global order counter; message ids and quantities are taken to fit the engines' fields.
- Liquibook.OrderBook: stop orders, market-priced orders, `replace`, the pending-order queue, quantity
  reservation and logging; the adapters use none of them, and babobook differs on the first three.
- LiquiServes.AonTakes: says when an all-or-none order trades against ordinary orders; against
  all-or-none ones the code decides greedily, and `LiquiAons.AonIsFair` is what holds then.
- LiquiServes.JoinsServes: likewise for the orders among which the new one comes to rest.
- Liquibook.OrderBook.CallbackNow: callbacks are performed in order and listeners only record; a
  listener that calls back into the book is not modelled.
- Liquibook.OrderBook.MatchAonOrder: if the code reads an entry that it has erased, which is undefined,
  the answer `ok` is false and nothing is said of the book (`LiquiAons.UndefinedReadsErased`).
- Liquibook.OrderBook.MatchOrder: likewise.
- Liquibook.OrderBook.CheckDeferredAons: likewise.
- Liquibook.OrderBook.AddOrder: likewise.
- Liquibook.OrderBook.Add: likewise.
- LiquiDepth.Depth.CloseOrder: an absent bid price is left out if the best ask has one order, since
  erasing that level as a bid breaks the window of the bids; so is an absent ask price, for which the
  code reads past the array.
- LiquiDepth.Depth.ReplaceOrder: likewise for the price the order had.
- LiquiDepth.Depth.ChangeQtyOrder: an absent ask price, for which the code writes past the array.
- LiquiDepth.Depth: the number of orders at a level is not cut to 32 bits.
- `fill_order`, `ignore_fill_qty`, the restoration queries and publication of Liquibook's depth; the
  first two only choose between close and change.
- Liquibook's `DepthOrderBook` and the wiring of depth to its book; the adapters' comparison runs
  without it.
- MatchingBooks.MatchingBook: the listener is a list of events written at the call; a listener that
  throws or re-enters is not modelled. `is_stopped` and the market price follow the code.
- `SimpleOrder::reserve` and the state flags of babobook's orders: the book never uses them.
- Pool.AllocatorPool: `destroyAll`, `advanceCount`, `allocateWithIndex`, `getSlot` and the high-water
  mark; a chunk's object is one cell that overlays the link.
- Hash-table internals, iterators over levels in both directions, lifetimes and raw storage.
- The benchmark driver, audit, transport, platform, workload, performance and plotting code.
