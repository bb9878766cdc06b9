# Verified models of the server engine

Dafny models of the parts of a game server (a fork of The Forgotten Server) that carry real invariants, with proofs
of what they keep. Each module models one component, in the form its code has: loops over queues, lists and arrays,
objects whose methods update their fields, steps of threads.

| module | component |
|---|---|
| PlayerItemRows | player items flattened into database rows, and the table of the rows read back |
| PlayerItemForest | the forest of items rebuilt from such a table |
| PlayerItemRoundTrip | saving and loading together |
| OtbLoader | the escaped tree format of item and map files: parser and unescaping |
| PropStreams | the byte streams under the binary formats |
| CustomAttributes | the tables of named values that scripts attach to items, and their bytes |
| MapItemCodec | the nested item format of house tiles |
| Containment | containers as mutable trees: parent pointers, lists, cached weights, what may be added |
| ContainerIterators | the breadth-first walk through a container and the queries built on it |
| ItemEquals | the comparison of two items that decides whether stacks merge |
| StackMoves | adding and moving stacks between containers: dry run, real run, redirection, merging |
| Money | paying with coins at any depth, and giving money as coins |
| Trade | the trade between two players |
| MarketGoods, Market | market offers, with the goods and the money behind them |
| DecayWheel | the timer wheel that makes items decay |
| DatabaseTasks | the database task queue shared by threads, every interleaving |
| WalkCache | a creature's cache of walkable tiles, shifted in place |
| Conditions | a player's conditions and the running modifiers they leave |
| DamageList | damage spread over rounds |
| Base32 | decoding of token secrets |

Objects whose fields the code updates are classes. The proofs about them go through values: a snapshot of the state
(`Shape`, `State`, `Books`, `Sides`, grids of cells) and functions or relations on snapshots; the methods' contracts
tie each new snapshot to the old one, and lemmas prove what every step and every run keeps.

## What the code does otherwise than its promise

- `ItemEquals`, `StackMoves`: the comparison of items is not symmetric (`src/item.cpp:182-233`): an item with
  attributes only counts as equal to one that has abilities as well, but not the other way round. A dry run of adding a
  stack is then right about the verdict but not about the place: a call that is accepted takes a container over its
  capacity, and another one after it loses the whole stack without a word. Exactly when the comparison is one-sided,
  when an accepted call exceeds the capacity and when it drops units is proved for all inputs.
- `Money`: `addMoney` multiplies in 32 bits. The exact condition under which it creates the amount asked for is
  proved for all amounts, with the first amount that fails.
- `Trade`: a player may accept while the other has still to answer (`src/game.cpp:2625`), and then gets whatever is
  offered afterwards. Over all runs it is proved exactly when what a player gets was there to be seen.
- `WalkCache`: `getDistanceY` is an absolute distance (`src/position.h:67`), so after a step to the south-east or
  south-west two rows of the cache are wrong. The cache is proved right in all worlds if and only if the step is none
  of these two, and what it shows after them is proved as well.
- `OtbLoader`: a file with a bare root is one byte short of the loader's minimal size and is refused.
- `DatabaseTasks`: the worker looks at the state outside the lock. A shutdown's wake-up is missed exactly if it comes
  between that look and the wait; with nobody else about to wake it, the worker is then stuck whatever happens, unless
  it wakes for no reason or another shutdown follows.
- `DamageList`, `Market`: computations in floating point are read as exact rationals.

## Model

| member | source | states |
|---|---|---|
| PlayerItemRows.SaveItems | src/iologindata.cpp:567-641 | the rows of any forest number its items from 101, roots first, one row each, and the rows under the id of every item are exactly its contents, in order |
| PlayerItemRows.SaveContents | src/iologindata.cpp:608-641 | one turn of the queue: rows for one container, with all earlier rows complete or still queued |
| PlayerItemRows.LoadItems | src/iologindata.cpp:945-976 | the item map is the table of the rows of creatable types |
| PlayerItemRows.ItemTableMeaning | src/iologindata.cpp:945-976 | the table does not depend on the order in which rows with distinct ids come back |
| PlayerItemForest.Rebuild | src/iologindata.cpp:453-541 | walking the ids downwards puts each item to the front of its slot, depot, inbox or container: lists ascend in id, pointers and every cached weight follow, whatever order contents and containers come in; an inventory slot ends with the highest id that names it |
| PlayerItemForest.UpdateItemWeight | src/container.cpp:144-150 | passing an attached item's weight up from its container makes every cached weight of the rebuilt forest right again; it ends as no row lies in itself |
| PlayerItemForest.RaisedOne | src/container.cpp:144-150 | putting one cached weight right moves the difference to the container around it |
| PlayerItemRoundTrip.FlattenedParentsFirst | src/iologindata.cpp:567-641 | in the rows of any save, read back in any order, every nested row names a smaller id, never one that reads as a slot or depot number, so that none lies in itself |
| PlayerItemRoundTrip.TreeReloaded | src/iologindata.cpp:453-541 | below every id of the rebuilt forest hangs exactly the item tree that was numbered with it |
| PlayerItemRoundTrip.WeightReloaded | src/container.cpp:670-680 | a rebuilt container caches the summed weight of the tree it was saved from, at every depth |
| PlayerItemRoundTrip.RootsReloaded | src/iologindata.cpp:463-533 | under every slot or depot number the same roots hang in the same order |
| PlayerItemRoundTrip.ParentsReloaded | src/container.cpp:670-680 | lists and parent pointers of the rebuilt forest agree |
| PlayerItemRoundTrip.SaveThenLoad | src/iologindata.cpp:453-541 | saving any forest and loading its rows in any order gives the same roots, trees and child order, right parents and right cached weights |
| OtbLoader.ParseTree | src/fileloader.cpp:30-105 | the in-place stack parser yields what stepping through the file by the Step function yields, or fails with it |
| OtbLoader.GetProps | src/fileloader.cpp:107-122 | the flagged copy yields the unescaped bytes of the props range, or nothing for an empty range |
| OtbLoader.UnescapeEscape | src/fileloader.cpp:107-122 | unescaping inverts escaping for all bytes |
| OtbLoader.RunTree | src/fileloader.cpp:64-99 | reading a written tree adds its node to the innermost open node and nothing else, whatever follows |
| OtbLoader.ReadLayout | src/fileloader.cpp:53-122 | props and children can be read back from where a written tree's nodes lie |
| OtbLoader.ParseWritten | src/fileloader.cpp:30-105 | a file that holds one written tree parses to nodes that stand for that tree; the one exception is a bare root, which the minimal file size excludes |
| OtbLoader.StepKeepsSpans | src/fileloader.cpp:64-99 | every step keeps the spans of open and closed nodes properly nested |
| OtbLoader.ParsedSpans | src/fileloader.cpp:53-105 | in every accepted file, whoever wrote it, spans are properly nested |
| OtbLoader.NestedChildren | src/fileloader.cpp:53-105 | children lie after their parent's props, before its end, and one after the other |
| OtbLoader.NestedInFile | src/fileloader.cpp:53-105 | every node of an accepted file has its props within the file |
| OtbLoader.RunIffBalanced | src/fileloader.cpp:64-102 | from any state the rest is accepted if and only if its unescaped starts and ends balance |
| OtbLoader.ParsedIffBalanced | src/fileloader.cpp:53-105 | past the header, a file is accepted if and only if its nodes balance |
| PropStreams.FromLeLe | src/fileloader.h:146-150 | the bytes of a value read back as the value modulo its width |
| PropStreams.TakeWritten | src/fileloader.h:84-93 | reading a written value gives it back and leaves what follows |
| PropStreams.TakeWrittenString | src/fileloader.h:95-112 | reading a written string gives it back, or the empty string for one too long to write, and leaves what follows |
| PropStreams.PropWriteStream.Write | src/fileloader.h:146-150 | appends the value's bytes, lowest first |
| PropStreams.PropWriteStream.WriteString | src/fileloader.h:152-161 | appends length and bytes, or a zero length beyond 65535 |
| PropStreams.PropStream.Read | src/fileloader.h:84-93 | reads a value and advances, or fails and stays |
| PropStreams.PropStream.ReadString | src/fileloader.h:95-112 | reads a string and advances, or fails |
| PropStreams.PropStream.Skip | src/fileloader.h:114-121 | advances if and only if enough bytes are left |
| MapItemCodec.SerializeAttr | src/item.cpp:724-843 | appends exactly the encoding of the item's stored attributes |
| MapItemCodec.ReadAttr | src/item.cpp:378-661 | one attribute read off the stream does to the item what the decoder says of its tag, or fails with it |
| MapItemCodec.UnserializeAttr | src/item.cpp:663-675 | reads attributes up to the end mark or the announcement of contents, as the decoder does, failing exactly when it does |
| MapItemCodec.SaveItem | src/iomapserialize.cpp:230-249 | appends exactly the nested encoding of a tree, contents last first |
| CustomAttributes.SerializeTable | src/item.cpp:831-842 | appends exactly the encoding of a table of named values |
| CustomAttributes.UnserializeTable | src/item.cpp:632-654 | sets the values read one after the other, or fails with the decoder |
| CustomAttributes.Unserialize | src/item.h:410-460 | one value by its type mark, or a failure for a mark of no type |
| CustomAttributes.TakeEncodedTable | src/item.cpp:632-654 | a written table reads back as exactly its entries, each as its width carries it, and leaves what follows |
| CustomAttributes.WithAllSize | src/item.h:581-589 | setting entries leaves at most as many as there were and were set, and as many only if all of them stand there in order |
| CustomAttributes.WithAllMeaning | src/item.h:581-589 | setting entries one after the other keeps each key once, in lower case, and the table then maps each key to the value set for it last |
| CustomAttributes.TableKeptIff | src/item.cpp:831-842 | a table comes back unchanged if and only if all its keys and texts fit 65535 bytes and all its numbers 64 bits |
| MapItemCodec.LoadItem | src/iomapserialize.cpp:144-176 | decodes one tree off the stream and leaves exactly the undecoded bytes |
| MapItemCodec.LoadContainer | src/iomapserialize.cpp:126-142 | decodes the announced number of items and the end mark, or fails |
| MapItemCodec.TakeEncoded | src/item.cpp:663-675 | reading written attributes sets exactly the stored ones and goes on with what follows |
| MapItemCodec.DecodeEncoded | src/iomapserialize.cpp:144-176 | loading a saved tree of any depth yields the restored tree and consumes exactly the bytes written, whatever follows them |
| MapItemCodec.DecodeEncodedContents | src/container.cpp:99-108 | saved contents come back in their old order, in front of what is there |
| MapItemCodec.AttrKeptIff | src/item.cpp:724-843 | an attribute comes back as it was if and only if it is stored and its width holds it, or it was not there and is not made up |
| MapItemCodec.SubTypeKeptIff | src/item.cpp:338-376 | count, fluid and charges come back if and only if their type and width can carry them |
| MapItemCodec.RestoredIff | src/item.cpp:378-661 | an item comes back unchanged, contents aside, if and only if every part of it is kept |
| MapItemCodec.TreeRestoredIff | src/iomapserialize.cpp:230-249 | a tree of any depth comes back unchanged if and only if every item in it does |
| Containment.UpdateItemWeight | src/container.cpp:144-150 | passing a difference up from the one container whose cached weight is off makes every cached weight in the forest right and changes nothing else |
| Containment.MendOne | src/container.cpp:144-150 | mending one cached weight moves the difference to the container around it |
| Containment.QueryAdd | src/container.cpp:264-324 | no error if and only if the child is the owner, or the container is unlocked, the item can be picked up and does not hold the container, no inbox forbids it, there is room and the carrier agrees |
| Containment.AddThing | src/container.cpp:475-494 | inserts at the front, or ignores an index beyond the capacity, keeping lists, pointers, acyclicity and every cached weight right |
| Containment.AddItemBack | src/container.cpp:496-505 | the same at the back |
| Containment.UpdateThing | src/container.cpp:507-528 | a listed item's new type and count are reflected in every cached weight above it; an unlisted item is left alone |
| Containment.RemoveThing | src/container.cpp:554-587 | takes units off a stack or the item out of its list, keeping the whole forest right |
| Containment.ReplaceThing | src/container.cpp:530-552 | puts an item in another's place, which is left without a parent, keeping the whole forest right |
| Containment.GetThingIndex | src/container.cpp:589-599 | the place of a listed item, or -1 if and only if it is not listed |
| Containment.InsertedForest | src/container.cpp:475-505 | putting a root that does not hold the container into its list keeps the forest linked and acyclic and leaves only that container's cached weight off, by the item's weight |
| Containment.RemovedForest | src/container.cpp:554-587 | taking an item out keeps the forest linked and acyclic and leaves only its container's cached weight off |
| Containment.ReweighedOff | src/container.cpp:507-528 | changing a listed item's own weight leaves only its container's cached weight off, by the difference |
| Containment.AttachedAcyclic | src/container.cpp:264-324 | attaching what the query admits closes no cycle |
| Containment.DetachedAcyclic | src/container.cpp:554-587 | detaching closes no cycle |
| ContainerIterators.ContainerIterator.constructor | src/container.cpp:689-697 | a new iterator has all descendants before it, in level order |
| ContainerIterators.ContainerIterator.Advance | src/container.cpp:704-722 | each step takes exactly the first of what remains |
| ContainerIterators.VisitsAreLevelOrder | src/container.cpp:689-722 | the queue is worked off level by level |
| ContainerIterators.LeftAfterOne | src/container.cpp:704-722 | visiting an item takes it off the front whether its contents are queued before or after |
| ContainerIterators.LevelOrderComplete | src/container.cpp:689-722 | level order meets every descendant exactly as often as it occurs, so once |
| ContainerIterators.GetItemHoldingCount | src/container.cpp:197-204 | is the number of descendants |
| ContainerIterators.IsHoldingItem | src/container.cpp:206-214 | is exactly membership among the descendants |
| ItemEquals.Equals | src/item.cpp:182-233 | the nested loops decide exactly: same id, and for attributes and abilities the same values if the first item has them; that the second has none is asked only if the first has neither |
| ItemEquals.SameEntries | src/item.cpp:200-214 | two lists with one mask compare as the values of each kind do, in whatever order they stand |
| ItemEquals.OrderIsNothing | src/item.cpp:182-233 | the order of the entries means nothing |
| ItemEquals.OneSidedIff | src/item.cpp:182-233 | the comparison holds one way only if and only if the first item has one part, and the second the same one and the other one as well |
| ItemEquals.ClonedSame | src/item.cpp:170-180 | a clone compares equal to its item, either way, if and only if the item has no table of custom attributes |
| ItemEquals.SameIsPreorder | src/item.cpp:182-233 | it is reflexive and transitive, and holds exactly between equal items and in that one case |
| StackMoves.QueryMaxCount | src/container.cpp:326-377 | how many units fit on stacks and in free slots, and the verdict that follows |
| StackMoves.QueryDestination | src/container.cpp:401-468 | where an item that should go to a place really goes: up, into an item, onto the first stack that takes it, or anywhere |
| StackMoves.InternalAddItem | src/game.cpp:1217-1299 | dry and real calls give the same verdict; a dry or refused call changes nothing; an accepted one does what RealAdd says; the recursion ends on the shrinking remainder |
| StackMoves.AcceptedMeansAdded | src/game.cpp:1224-1299 | an accepted call leaves no remainder, and stores the whole stack over the stacks that take it and one new stack if and only if the comparison of items is mutual on the stacks touched |
| StackMoves.AddedIsSafe | src/game.cpp:1224-1299 | what is stored is exactly the item's units of its id, no stack goes over 100, the container stays within capacity, everything else stays in place |
| StackMoves.AcceptedMeansStowed | src/game.cpp:1224-1299 | for every accepted item, what a real call leaves: stacks are filled up to the first one on which the comparison is not mutual, the rest goes to the front, or is dropped if that stack lies beyond the capacity |
| StackMoves.AcceptedIsSafe | src/game.cpp:1224-1299 | no stack goes over 100; a container within its capacity stays so if and only if the item does not stack, the comparison is mutual on the stacks touched, or a slot is free; all units are stored, and no others touched, if and only if merging does not end at a stack beyond the capacity, as it never does in a container within its capacity |
| StackMoves.MutualIff | src/item.cpp:182-233 | the comparison is mutual on the stacks touched if and only if none of them is equal to the item one way only |
| StackMoves.OneSidedOverfills | src/game.cpp:1256-1292 | over a stack with attributes only, an accepted item with the same attributes and abilities takes the container over its capacity, and a second one after it is accepted and lost |
| StackMoves.FillUnits | src/game.cpp:1260-1299 | filling stacks conserves the units of every id |
| StackMoves.FillLeft | src/game.cpp:1260-1299 | what filling leaves over is what exceeds the room on the stacks |
| StackMoves.FindDestination | src/game.cpp:1042-1085 | the redirect loop settles after at most one redirect, at the place the final destination gives |
| StackMoves.InternalMoveItem | src/game.cpp:1042-1215 | moves something if and only if nothing stands in the way: an unlocked destination that admits the item and has room, at a place that is not the item itself, and a moveable item in the source with enough units; it then moves what was asked for as far as there is room, and reports a shortage if and only if that is less; the destination never goes over its capacity, other containers and failures change nothing |
| StackMoves.Carry | src/game.cpp:1120-1215 | removal and arrival together are one move of the item or part of it |
| StackMoves.MovedConserves | src/game.cpp:1042-1215 | a move conserves the count of every item id over source and destination and keeps every stack within 100 |
| StackMoves.MovedKeepsApart | src/game.cpp:1042-1215 | a move never lists an item twice |
| Money.AddMoney | src/game.cpp:1493-1534 | creates coins worth what the integer widths of the code yield, each to the holder or the ground, touching no other item |
| Money.CreatedExactly | src/game.cpp:1493-1534 | exactly the amount is created while the crystal coins times 10000 stay below 2^32 |
| Money.CreatedIff | src/game.cpp:1493-1534 | for all amounts, exactly the amount is created if and only if the number of crystal coins fits 32 bits and their product either does too, or goes round 32 bits a multiple of 25 times with the amount no multiple of 100 |
| Money.CreatedWrong | src/game.cpp:1493-1534 | every amount below 4294970000 is created exactly; for 4294970000 itself 4096 too much is created |
| Money.Collect | src/game.cpp:1424-1467 | the collecting loops find every held coin at any depth once, sorted by worth, and their sum is the money held |
| Money.Break | src/game.cpp:1478-1485 | breaking a stack takes as many coins as cover the rest and gives the excess back: wealth falls by exactly the rest |
| Money.RemoveMoney | src/game.cpp:1414-1491 | pays if and only if enough is held, otherwise changes nothing; wealth, with what was dropped as change, falls by exactly the amount; cheaper stacks go before dearer ones; change consists of smaller coins than the one broken |
| Money.CollectedNames | src/game.cpp:1424-1467 | the collected coins are exactly the held ones worth something, each once |
| Trade.Game.PlayerRequestTrade | src/game.cpp:2477-2584 | a trade starts if and only if all checks pass: another player, at most 100 items, no offered item equal to, in or around the new one, and neither player otherwise engaged; it then changes exactly the two sides and the table |
| Trade.Game.InternalStartTrade | src/game.cpp:2586-2617 | starts exactly when both sides are free for it, with the whole new state |
| Trade.Game.PlayerAcceptTrade | src/game.cpp:2619-2718 | a first acceptance only changes that side's state; the second carries the trade out and closes it whatever comes of it; items move only when both have accepted and offered |
| Trade.Game.CarryOut | src/game.cpp:2640-2717 | both sides end without a trade, both offers leave the table, and the two items move as the checks and moves allow |
| Trade.Game.InternalCloseTrade | src/game.cpp:2817-2859 | resets exactly the two sides and takes exactly their offers from the table |
| Trade.StartedSettled | src/game.cpp:2586-2617 | starting keeps partnership mutual and irreflexive, states and partners consistent, never both sides waiting, and the table the inverse of the offers |
| Trade.AcceptedPaired | src/game.cpp:2619-2640 | accepting keeps the same |
| Trade.ClosedSettled | src/game.cpp:2817-2859 | closing keeps the same and leaves no trade that both have accepted |
| Trade.TableIsInverse | src/game.cpp:2586-2617 | the table of traded items is exactly the map from each player's offered item to that player |
| Trade.MoveKeepsNesting | src/game.cpp:2670-2688 | moving an item nests no two others that it does not hold |
| Trade.TransferKeepsApart | src/game.cpp:2655-2688 | the exchange leaves the items still offered pairwise not nested |
| Trade.RunSafe | src/game.cpp:2477-2859 | over every run of requests, acceptances and closings all this holds, and no offered item ever lies in another |
| Trade.AcceptedAt | src/game.cpp:2586-2640 | over every run, a side that has accepted did so at one step, and has stayed as it was since; what the other side has on the table has changed since then if and only if it made an offer, and then there was nothing before |
| Trade.SeenIff | src/game.cpp:2586-2640 | over every run, when the second player accepts, what the first one is to get was on the table at the first acceptance if and only if the second player was not still to answer then, so if and only if no offer has come since |
| Trade.SwappedUnseen | src/game.cpp:2619-2718 | a run in which a player accepts before there is any answer, and both items change hands |
| MarketGoods.GetMarketItemList | src/game.cpp:5445-5484 | returns nothing if and only if fewer units can be sold than asked for; otherwise distinct saleable things, just enough of them; the 16-bit count never wraps for amounts up to 64000 |
| MarketGoods.TakeListed | src/game.cpp:5156-5172 | takes exactly the amount of the ware out of chest and inbox and nothing else |
| MarketGoods.Deliver | src/game.cpp:5222-5252 | adds exactly the amount of the ware to the inbox, in stacks of at most 100 or one by one, and changes nothing else |
| MarketGoods.TakenOne | src/game.cpp:5156-5172 | removing units of one thing takes them from its ware and leaves every other thing, at any depth |
| Market.Market.PlayerCreateMarketOffer | src/game.cpp:5096-5199 | succeeds if and only if amount, price, number of offers, money and goods allow it; then the offer stands, its backing and a fee of 20 to 1000 are taken; otherwise nothing changes |
| Market.Market.PlayerCancelMarketOffer | src/game.cpp:5201-5261 | succeeds if and only if the offer found is the player's own, and gives back exactly what backs it |
| Market.Market.PlayerAcceptMarketOffer | src/game.cpp:5263-5431 | succeeds if and only if the offer holds the amount and the player has the goods or the money; goods and money change hands at the offer's price, also when the owner accepts |
| Market.Market.ProcessExpiredOffers | src/iomarket.cpp:120-192 | exactly the expired offers go; every player has gained exactly the money and goods behind the expired offers of that player; all money and the units of every ware are conserved |
| Market.Market.GetOfferByCounter | src/iomarket.cpp:222-251 | the first offer with that creation time and low half of the number |
| Market.Market.CountOffers | src/iomarket.cpp:210-220 | the number of the player's live offers |
| Market.CreatedConserves | src/game.cpp:5096-5199 | creating an offer conserves money, with deposits and fees, and the units of every ware, with escrow |
| Market.ReturnedConserves | src/iomarket.cpp:283-305 | cancelling or expiring conserves both |
| Market.AcceptedConserves | src/game.cpp:5263-5431 | accepting conserves both |
| Market.RunConserves | src/game.cpp:5096-5431 | over every run, bank balances plus price times amount of live offers to buy plus fees, and for every ware the units with players plus those offered, are constant |
| DecayWheel.Wheel.StartDecay | src/game.cpp:4394-4412 | an item enters the waiting list once, with one reference, or decays at once; one that cannot decay or is decaying is left alone |
| DecayWheel.Wheel.InternalDecayItem | src/game.cpp:4414-4426 | an item that is turned into a decaying one waits anew with its new time |
| DecayWheel.Wheel.CheckItem | src/game.cpp:4434-4466 | what becomes of one item of the list whose turn it is |
| DecayWheel.Wheel.CheckDecay | src/game.cpp:4428-4470 | one tick takes one tick off every listed item; those with one left decay, once, and no others; items unable to decay are dropped; waiting ones are listed with their whole time |
| DecayWheel.Wheel.Cleanup | src/game.cpp:4551-4573 | releases every pending reference and lists every waiting item in the right list, leaving the rest |
| DecayWheel.FurtherFormula | src/game.cpp:4434-4466 | with D at least 1000, the tick is 4 * (D / 1000), plus one if D mod 1000 is at least 875 |
| DecayWheel.NearlyInTime | src/game.cpp:4434-4466 | an item decays less than 875 ms early and less than 250 ms late, and late only if its whole time is under 250 ms |
| DecayWheel.PassedTicked | src/game.cpp:4428-4470 | passing through the list and cleaning up together make one tick, for every item in any list |
| DecayWheel.StartedThenDecays | src/game.cpp:4394-4470 | over every run that starts an item with time left, then any number of others, and then cleans up, by itself or in a tick: an item able to decay whenever it is looked at decays at the tick its whole time is due, and at none before |
| DecayWheel.DecaysWhenDue | src/game.cpp:4394-4470 | over every run of starts, ticks and cleanups, an item able to decay whenever it is looked at decays at the very tick it is due and at none before |
| DatabaseTasks.StepLock | src/databasetasks.cpp:34-105 | every step keeps the lock with exactly those in their locked part |
| DatabaseTasks.StepQueue | src/databasetasks.cpp:54-67 | every step keeps accepted tasks equal to taken ones followed by queued ones |
| DatabaseTasks.StepWake | src/databasetasks.cpp:37-67 | every step keeps: a worker asleep beside a filled queue has a wake-up on its way |
| DatabaseTasks.StepShutdown | src/databasetasks.cpp:86-105 | every step, also a stop after a shutdown, keeps: nothing is accepted after a shutdown, and a flushed queue stays empty |
| DatabaseTasks.RunSafe | src/databasetasks.cpp:34-105 | over every interleaving of adders, worker, flushes and shutdowns all of this holds: first in first out, at most once, none lost |
| DatabaseTasks.FlushedMeansAllTaken | src/databasetasks.cpp:86-105 | once a shutdown has flushed the queue every accepted task has been taken, in order |
| DatabaseTasks.NotifiedInTime | src/databasetasks.cpp:34-52 | when a shutdown has given its wake-up, the worker is on its way out if and only if the state is still terminated and the worker is not between its look at the state and its wait |
| DatabaseTasks.NoSleepStays | src/databasetasks.cpp:34-52 | every step but a stop keeps it on its way out |
| DatabaseTasks.NotifiedTooEarly | src/databasetasks.cpp:100-106 | with nobody else about to wake it, the worker is stuck after the wake-up if and only if it was between the two |
| DatabaseTasks.StuckStays | src/databasetasks.cpp:34-52 | every step but a spurious wake-up and another shutdown keeps it stuck |
| DatabaseTasks.NotifiedRun | src/databasetasks.cpp:34-106 | over every run without a later stop, a worker notified in time never waits again |
| DatabaseTasks.StuckRun | src/databasetasks.cpp:34-106 | over every run without a spurious wake-up or a later shutdown, a worker that is stuck never ends |
| DatabaseTasks.ShutdownMissed | src/databasetasks.cpp:37-41 | a run from the start after which the worker waits and is stuck |
| WalkCache.Creature.UpdateMapCache | src/creature.cpp:294-308 | every cell shows its tile |
| WalkCache.Creature.UpdateTile | src/creature.cpp:310-325 | after a change of one tile the cache is right again |
| WalkCache.Creature.GetWalkCache | src/creature.cpp:327-356 | with a right cache, 1 exactly for walkable tiles in view and the own one, 0 for others and other floors, 2 out of view |
| WalkCache.Creature.OnCreatureMove | src/creature.cpp:489-568 | after any step but a southern diagonal, and after any longer way, the cache shifted in place is what looking at every tile would give; after a southern diagonal each cell shows the tile named by ShownX |
| WalkCache.MovedShows | src/creature.cpp:495-566 | which tile each cell shows after shifting rows, then columns, in the world after the step |
| WalkCache.ShownRightIff | src/creature.cpp:495-566 | the cache shifted in place stays right, from every right cache and in every world, if and only if the step is no southern diagonal |
| Conditions.Player.AddCondition | src/creature.cpp:1133-1162 | adds, merges or refuses exactly as the guards say; what is then in the list is the condition as started or as merged, and the others stay; keys stay unique and every modifier stays its base plus the sum of the active deltas |
| Conditions.Player.OnAddCondition | src/creature.cpp:1000-1007 | haste and paralysis drive each other out, with their deltas |
| Conditions.Player.RemoveConditions | src/creature.cpp:1177-1230 | removes exactly the chosen conditions and their deltas, or nothing while a paralysis has to wait |
| Conditions.Player.RemoveAt | src/creature.cpp:1245-1265 | removes one condition and its delta |
| Conditions.Player.ExecuteConditions | src/creature.cpp:1287-1305 | time passes for every condition, those that are over go with their deltas |
| Conditions.Player.StartCondition | src/condition.cpp:395-411 | the started condition has its end time and its own speed, or the roll if it has none, or differences for percentages; every modifier grows by the delta stored in it |
| Conditions.Player.EndCondition | src/condition.cpp:492-533 | every modifier falls by the stored delta |
| Conditions.Player.Merge | src/condition.cpp:344-368 | all stays as it is for a condition that ends earlier; otherwise the new times and the new speed, or the roll if there is none, or the new attributes are stored, and the old delta gives way to the new one |
| Conditions.Player.MergeAttributes | src/condition.cpp:344-368 | the old deltas go, and the new percentages are taken of the stats without them |
| Conditions.Player.MergeSpeed | src/condition.cpp:1399-1430 | the speed changes by the difference of the two deltas |
| Conditions.Player.ChangeSpeed | src/game.cpp:3617-3622 | the speed modifier changes by exactly the difference given |
| Conditions.Player.UpdatePercents | src/condition.cpp:413-462 | percentages become differences: of the base skills, of the maximum health and mana of the moment with all that modifies them, and of the base magic level; the rest stays |
| Conditions.Player.BackToBase | src/condition.cpp:492-533 | with no condition left every modifier is at its base |
| Conditions.Replaced | src/condition.cpp:344-368 | exchanging a condition for one of its key keeps keys unique and changes every total by the difference |
| Conditions.OthersDropped | src/creature.cpp:1177-1202 | erasing a chosen condition does not change what is left to keep |
| DamageList.GenerateDamageList | src/condition.cpp:1286-1304 | the list is non-increasing, holds exactly the values from start down to 1, each stage ends nearest to its target, and the total T satisfies amount <= T <= max(amount, start*start/2 + max(amount/start, start/2)) |
| DamageList.Repeat | src/condition.cpp:1295-1301 | one stage ends, with its sum within half a round below its target or beyond it by less than half a round unless it ran once |
| DamageList.NearestOf | src/condition.cpp:1295-1301 | a stage that stops there is as near to its target as any positive number of rounds is |
| DamageList.BoundAfter | src/condition.cpp:1286-1304 | the bound on the total after the last repeated round |
| DamageList.ConvexBound | src/condition.cpp:1286-1304 | over all stages the bound is largest at the first or the last |
| Base32.DecodeSecret | src/iologindata.cpp:55-82 | empty for any character outside the alphabet; otherwise exactly the first 5n/8 whole bytes of the letters' five-bit values, although the 32-bit buffer wraps |
| Base32.NextByte | src/iologindata.cpp:74-78 | a byte of the wrapped buffer is the byte of the whole number |
| Base32.BytesUnique | src/iologindata.cpp:55-82 | length and value determine a key |
| Base32.EncodeDecodes | src/iologindata.cpp:55-82 | decoding inverts the unpadded encoding of section 6 of RFC 4648 for every key |
| Base32.DecodeEncoded | src/iologindata.cpp:55-82 | decoding an encoded key gives the key |

## Left out

- Client messages, effects, spectators, chat, descriptions, logging, XML, SQL text and the scripts: databases are rows
  and sequences, script hooks are booleans or outcomes given as parameters, positions and reachability are one
  parameter of the request that checks them.
- Sockets, protocol classes, tiles, the map and the scheduler. The ground takes everything dropped on it; the
  exchange of items in an occupied slot is no part of the moves.
- PlayerItemForest.Rebuild: rows that lie, over any number of others, in themselves; on such a cycle the code's upward
  weight update does not end. Saved rows are never such.
- Errors of the database and failed loading of an offline player: not modelled in PlayerItemForest and Market.
- Containment.UpdateItemWeight: weights are unbounded integers, the wrap-around of the cached 32-bit sum is not modelled.
- Containment.QueryAdd: what the carrying creature answers is a parameter; depot chests, lockers and inboxes, whose
  parents skip a level, are not part of the weight invariant.
- Containment.RemoveThing: the list is shortened before the weights above it are adjusted; the code adjusts first, with the same result.
- MapItemCodec.ReadAttr: a unique id is passed over; whether the code sets one depends on the ids in use all over the
  map, and saved items hold none.
- MapItemCodec.SerializeAttr: the order in which a hash table of custom attributes is walked through is that of its
  entry list.
- MapItemCodec.SaveItem: the separate stream of abilities and the stationary items of a tile are not modelled, nor the
  start of decay after loading and the special item classes.
- ItemEquals.Equals: tables of custom attributes are compared by address, as in the code.
- StackMoves.InternalAddItem: the copy made for a remainder keeps the address of the item's custom attributes, where
  the code's has its own; since no two items share one, neither merges into a stack that is there.
- StackMoves.InternalMoveItem: only plain containers, without the no-limit flag; what admits an item is a parameter;
  items are values in a container's list, their nesting is modelled in Containment.
- Money.RemoveMoney: a created coin stack is a new item of the holder or lies on the ground; its merging into stacks
  that are there already is modelled in StackMoves.
- Trade.Game.PlayerAcceptTrade: the transfer is not all or nothing, since the code ignores the result of the second move;
  items are not moved between the steps by anything else.
- Market.Market.PlayerCreateMarketOffer: the fee is computed exactly; the code's product of doubles can be one lower.
- Market.Market.ProcessExpiredOffers: the query and its answer are one step, so the rows still match the live offers.
- Market: accounts, things and offers are values in sequences; depot chest and inbox are not shared with other holders.
- MarketGoods.Deliver: the inbox takes what can be offered; delivered items are new items and are not merged.
- DecayWheel.Wheel.InternalDecayItem: a chain of items that decay at once into one another is cut after one link; new
  items made by decay enter like any other started item.
- DatabaseTasks: steps on values of the shared state instead of methods of an object, since every claim is about
  interleavings.
- DatabaseTasks.RunSafe: safety only, no claim that a step is ever taken; the tasks themselves do nothing here, and the
  thread is started once.
- WalkCache.Creature.UpdateTile: item changes that the code takes for irrelevant to walking are assumed to be so.
- Conditions.Player.AddCondition: conditions are values in the player's list; kinds other than speed and attributes
  have no modifiers, and whether they start or last is a parameter, as are the clock and the random speed of a formula;
  the flag for being able to defend and script removal by combat are not modelled.
- Conditions.Player.UpdatePercents: the percentage is computed exactly and cut off toward zero, not in single precision.
- DamageList.GenerateDamageList: 32-bit overflow of the running products is not modelled.
- The light cycle, rent letters, bans, chat channels, spawns and the rest of the game: nothing there is harder than
  what is above.
