# A verified model of the tick-to-trade book, venue and order protocol

The repository holds a NASDAQ ITCH/OUCH feed handler and order manager (the device under test) and an
exchange simulator that drives it. This project models the logic of both in Dafny and proves what they
promise each other. `dafny verify dfyconfig.toml` checks all of it.

## What is proved

**The exchange's matching engine** (`Fifo`, `EngineState`, `Flatten`, `Matcher`, `OrderBook`). Orders
live in one pool of slots threaded into doubly linked FIFOs per price level and an acyclic free list.
Every operation keeps each slot either in exactly one level's list with shares or on the free list
without, keeps level totals and counts equal to their lists, and keeps the best prices at the extreme
non-empty levels. Read out in price-time order, one side is a plain sequence; `Match` computes exactly
what a reference matcher computes by hitting that sequence from the front.

**The venue** (`Ledger`, `Feed`, `Reports`, `VenueState`, `Sums`, `ShadowState`, `CrossTrace`, `Venue`).
Tape, synthetic and client orders share one engine. In every reachable state the live table, the
user-ref table, the client list and the pool describe the same orders; no client order is locked or
crossed with any opposite order; the OUCH messages sent so far are each consistent and fold to exactly
the open client orders, so that every accepted share is executed, cancelled, retired by a replace or
still open; and the ITCH messages the venue itself published are well formed and fold to exactly the
resting orders it announced. An accepted order causes exactly the reports of the reference matcher's
trades. Crossing tape orders and shadow fills hand out exactly the smaller of the shares and what is
eligible, and the order of a crossing's fills is determined.

**The order protocol** (`OmsSpec`, `Protocol`, `ProtocolProof`, `Convergence`, `OrderManager`,
`Session`, `Routing`, `Exchange`, `Trading`). The order manager and the venue run as two state machines
joined by two FIFO channels, tape fills racing replaces and cancels. Over every run no acknowledgement
is unknown, each slot has at most one unanswered request, and with both channels empty every slot is
idle or shows exactly the venue's order; a slot left to a target reaches it. `Exchange` dispatches any
order-entry message to any number of venues through the hint ring and is shown to answer like one venue,
with every open order at the venue its user ref was last sent to; to the order manager's requests those
are the protocol's answers. `Trading` joins an `OrderManager` and an `ExchangeSession` object by two
queues and shows each of their steps to be a step of the protocol.

**The feed-driven book** (`BandTotals`, `BandState`, `BandOps`, `BandShift`, `Ownership`, `BookBuilder`,
`PackedOrder`, `QuoteGate`). Flat level arrays over a moving price band, a bitmap, best prices and a
parked-share account agree after every message with the plain map from order reference to order, across
any number of re-anchors; which of the orders are the session's own, and so not shown, is what the
references they first came in under say, over whole runs. Both re-anchoring paths, the in-place shift
and the full rebuild, end in the one view that the new band and the order map determine. If the top
version is the same at two points of a run, so are the best prices, the sizes there and the band edges.
The session's gate that skips an unchanged top (`QuoteGate`) is shown, over whole runs, to lose a change
in one case only: the mark an acknowledgement leaves is itself a possible version, and a book marked
dirty whose version reaches it is skipped.

**The primitives below it**, each proved against the abstraction the book uses: `FlatHashMap` and
`ProbeTable` (a finite map), `LevelBits` and `Bits` (a set with exact neighbour search), `DivBy`
(division); `Arith` holds the arithmetic they share.

**The wire** (`Mold`, `MarketData`, `SendRing`). MoldUDP64 packets filled in place decode to the same
messages with contiguous sequence numbers and are in order for the tracker; transmit stamps match the
send they belong to through wrapping 32-bit keys.

**End to end** (`Follower`): a feed-driven book that reads the venue's own feed from the start holds
exactly the orders the venue announced and still rests.

## How the model relates to the code

- Vectors and hash maps that methods mutate are `seq` and `map` fields. `BookBuilder` uses a map, a set
  and `/` where the code uses `FlatHashMap`, `LevelBits` and `DivBy`; each of those is proved equal to
  its abstraction in its own module. The level bitmap answers `prev` and `next` as the functions
  `BandState.Prev` and `BandState.Next`, which is what `LevelBits` is proved to compute, and `Record` is
  what a `PackedOrder` is proved to read back as.
- The engine's trade callback is a returned list of trades. The venue's callback never reads the engine,
  so booking the list afterwards is the same; `ProcessOrder` is written as the match, the booking and
  the placing that `OrderBook::add` performs in one call.
- Several large methods are cut into smaller ones, because the proof needs it; the steps and their order
  are the code's.
- Prices, quantities and counters are unbounded integers. Wrap-around is explicit where it decides
  something: `DivBy`, the packed order word, the top version, the user-ref counter, the feed's sequence
  numbers, the ring indices and the stamp keys.
- The band width computed in floating point is an arbitrary natural number, applied above the minimum
  and below the cap.
- The fixed prices, ticks and user references of messages are those of the code; message structs are
  datatypes.
- Assumptions, stated as preconditions: user references are nonzero and not those of a live order; tape
  references lie below the venue's own and are fresh; the pool stays below 2^32 - 1 slots; order
  references on the feed are nonzero and fresh, shares below 2^30 and prices not negative; the keys of
  the hash map are nonzero; stamp positions lie within 2^31 bytes of the pending sends; in the joined
  protocol the wrapping user-ref counter never lands on a ref that a slot still uses, which is exactly
  when refs stay unambiguous (`RefsTaken`).
- The order manager settles the slot if a Replaced message arrives dead; the venue never sends one so,
  and the joined protocol has none.
- Predicates of the form `forall k :: Look(seal, k) ==> ...` are a plain fact kept folded, so that large
  proofs do not unfold it; a lemma beside each opens it.

## Model

| member | source | states |
|---|---|---|
| `Fifo.LevelAppend` | src/t2t/lob/OrderBook.hpp:299-318 | linking a fresh slot behind the tail turns the level's FIFO hs into hs + [h], with links, total, count, head and tail all right |
| `Fifo.LevelUnlink` | src/t2t/lob/OrderBook.hpp:255-267 | bridging the neighbours of any position leaves a well-formed list without that order, whatever the position |
| `Fifo.LevelReduce` | src/t2t/lob/OrderBook.hpp:178-180 | lowering one order's quantity in place keeps the level's list and makes its total right |
| `Fifo.FreePop` | src/t2t/lob/OrderBook.hpp:240-245 | taking the head of the free list leaves a well-formed list that no longer visits it |
| `Fifo.FreePush` | src/t2t/lob/OrderBook.hpp:250-253 | pushing an emptied slot leaves a well-formed, duplicate-free list |
| `EngineState.UnlinkedCore` | src/t2t/lob/OrderBook.hpp:151-156 | removing a queued order keeps every list, every total and the homing of every slot |
| `EngineState.RestedCore` | src/t2t/lob/OrderBook.hpp:299-318 | resting an order in a free or new slot keeps every list, every total and the homing of every slot |
| `Engine.OrderBook.Alloc` | src/t2t/lob/OrderBook.hpp:240-248 | yields a slot without shares that no list visits, taken from the free list or grown |
| `Engine.OrderBook.Rest` | src/t2t/lob/OrderBook.hpp:299-330 | the order joins the tail of its level; engine invariant and best price kept; every other order unchanged |
| `Engine.OrderBook.RescanBestBid` | src/t2t/lob/OrderBook.hpp:332-340 | finds the highest non-empty level at or below the old best, or none |
| `Engine.OrderBook.RescanBestAsk` | src/t2t/lob/OrderBook.hpp:342-350 | finds the lowest non-empty level at or above the old best, or none |
| `Engine.OrderBook.Cancel` | src/t2t/lob/OrderBook.hpp:140-165 | removes exactly that order from its queue and returns its shares; unknown or empty handles change nothing; the other side's best price stays |
| `Engine.OrderBook.Reduce` | src/t2t/lob/OrderBook.hpp:167-182 | lowers exactly that order and returns the difference; a larger or equal quantity changes nothing; queue position is kept |
| `Engine.OrderBook.MatchLevel` | src/t2t/lob/OrderBook.hpp:269-297 | consumes the level from its head; the run so far still resumes the reference matcher; ends with no shares left or an empty level |
| `Engine.OrderBook.Match` | src/t2t/lob/OrderBook.hpp:90-113 | trades, remainder and remaining book equal the reference matcher's; fills plus remainder equal the input; a remainder means no opposite order satisfies the limit and every hit order was filled; the own side is untouched |
| `Engine.OrderBook.Add` | src/t2t/lob/OrderBook.hpp:78-88 | trades, remainder and the opposite side left behind are the reference matcher's; the remainder joins the tail of its level with nothing opposite crossing it, or there is no handle |
| `Engine.OrderBook.Place` | src/t2t/lob/OrderBook.hpp:115-120 | rests at the tail of its level without matching, the opposite side untouched; out-of-range or empty orders change nothing |
| `Engine.OrderBook.Clear` | src/t2t/lob/OrderBook.hpp:122-133 | an empty, well-formed engine |
| `Engine.OrderBook.AheadInLevel` | src/t2t/sim/Venue.hpp:673-687 | true exactly if the first order comes before the second in the level's queue |
| `Matcher.MatchTrades` | src/t2t/lob/OrderBook.hpp:90-113 | trade i hits the i-th order in price-time order at its price, within the limit, for the aggressor and its side, and only the last can be partial |
| `Matcher.MatchConserves` | src/t2t/lob/OrderBook.hpp:90-113 | traded shares plus the remainder equal the input quantity |
| `Matcher.MatchLeaves` | src/t2t/lob/OrderBook.hpp:269-297 | the book left behind is the old one without a consumed prefix, its first order possibly reduced |
| `Matcher.MatchExhausts` | src/t2t/lob/OrderBook.hpp:95-111 | with a remainder, no order of a price-sorted book still crosses the limit |
| `Flatten.FlatSorted` | src/t2t/lob/OrderBook.hpp:95-111 | the read-out of a side is sorted by price priority |
| `Ledger.Conservation` | src/t2t/sim/Venue.hpp:203-316 | per user ref, shares open before plus entered equal executed plus cancelled plus retired plus open after, over any sound history |
| `Ledger.ToldConserves` | src/t2t/sim/Venue.hpp:203-316 | the same over a venue's whole history, which every venue state carries |
| `VenueModel.Venue.constructor` | src/t2t/sim/Venue.hpp:146-162 | a new venue satisfies the invariant with nothing sent, its tick range and first order reference as given, 1 instead of 0 |
| `VenueModel.Venue.ValidPrice` | src/t2t/sim/Venue.hpp:484-495 | a tick exactly if some in-range tick has that wire price |
| `VenueModel.Venue.OnEnterOrder` | src/t2t/sim/Venue.hpp:203-234 | refused, and nothing else happens, for a side other than B, S, short or short exempt, else for quantity 0, else for another symbol, else for a wire price that is no tick in range; otherwise accepted, a buy exactly for B, with the reports of exactly the reference matcher's trades and the remainder announced or, for immediate orders, cancelled; every other order keeps its shares; invariant and feed kept |
| `VenueModel.Venue.OnCancelOrder` | src/t2t/sim/Venue.hpp:236-269 | cancels down to the intended quantity, reports exactly the difference to client and feed, and no other order loses a share; unknown orders and non-reductions are rejected and change nothing |
| `VenueModel.Venue.OnReplaceOrder` | src/t2t/sim/Venue.hpp:271-316 | the first failing check is the reason of the only reply and changes nothing; otherwise Replaced, then a delete, the reports of exactly the reference matcher's trades and the remainder if somebody on the other side rests at a price the new one satisfies, and one replace message if nobody does; every other order keeps its shares |
| `VenueModel.Venue.MarketableMeans` | src/t2t/sim/Venue.hpp:690-695 | the test against the tracked best price is true exactly if some resting order on the other side satisfies the price |
| `VenueModel.Venue.InjectSynthetic` | src/t2t/sim/Venue.hpp:318-323 | consumes the next reference, reports exactly the reference matcher's trades and the remainder, and leaves the opposite side as the matcher does and everyone else's shares alone; an empty or out-of-range order changes nothing else |
| `VenueModel.Venue.CancelSynthetic` | src/t2t/sim/Venue.hpp:325-333 | removes exactly that order from book, live table and feed and tells no client; the tables stay in step if and only if the order is not a client's, since its user ref and list entry are not cleared |
| `VenueModel.Venue.ProcessOrder` | src/t2t/sim/Venue.hpp:513-527 | publishes exactly the reference matcher's trades in order and the remainder as an add; the opposite side is the matcher's, others keep their shares |
| `VenueModel.Venue.ProcessImmediate` | src/t2t/sim/Venue.hpp:529-537 | exactly the reference matcher's trades and the book it leaves; the remainder is cancelled and nothing rests |
| `VenueModel.Venue.HandleTrade` | src/t2t/sim/Venue.hpp:539-564 | one execution on the feed, the client aggressor's report first and then the resting client's, at the trade's wire price; the filled order dropped and no other; tables, ledger and feed stay in step |
| `VenueModel.Venue.DropClient` | src/t2t/sim/Venue.hpp:574-585 | the order leaves all three tables; the client list is swap-removed at its position |
| `VenueModel.Venue.FillClient` | src/t2t/sim/Venue.hpp:593-609 | one client order loses exactly those shares everywhere, and no other order changes |
| `VenueModel.Venue.BestCrossing` | src/t2t/sim/Venue.hpp:615-635 | the first listed of the clients with the best price among those the tape order crosses, or proof that there is none |
| `VenueModel.Venue.CrossClients` | src/t2t/sim/Venue.hpp:612-643 | fills exactly the smaller of the shares and the crossing clients' total, touching nobody else; the returned run of fills takes at each step the first listed client with the best price, as far as its shares go, through swap-removals, and its reports are exactly what the clients were sent |
| `CrossTrace.RunUnique` | src/t2t/sim/Venue.hpp:612-671 | for crossings and shadow fills alike, the client list and the open quantities at the start determine every fill and its order: two finished runs from the same start are equal |
| `CrossTrace.FillsOk` | src/t2t/sim/Venue.hpp:636-669 | one such fill, as tables and pool record it, is a step of that run |
| `VenueModel.Venue.MirrorAdd` | src/t2t/sim/Venue.hpp:335-354 | after that crossing, with its run of fills in that order, exactly the remainder rests under the tape reference; an invalid price changes nothing |
| `VenueModel.Venue.MirrorExecute` | src/t2t/sim/Venue.hpp:356-377 | clients ahead get the smaller of the shares and their total, in list order, the tape order loses the shares, nobody else changes |
| `VenueModel.Venue.MirrorCancel` | src/t2t/sim/Venue.hpp:379-397 | the tape order loses the shares or goes; every other quantity is unchanged |
| `VenueModel.Venue.MirrorDelete` | src/t2t/sim/Venue.hpp:399-407 | removes exactly the tape order |
| `VenueModel.Venue.MirrorReplace` | src/t2t/sim/Venue.hpp:410-422 | delete, then an add on the inherited side with its run of fills; an unknown reference changes nothing |
| `VenueModel.Venue.ShadowFill` | src/t2t/sim/Venue.hpp:646-671 | ends despite swap-removal and fills exactly the smaller of the shares and the total of same-side clients at a better price or ahead in the queue, nobody else, each time the first listed of those still eligible as far as its shares go, and reports exactly that run |
| `VenueModel.Venue.IsEligible` | src/t2t/sim/Venue.hpp:650-659 | true exactly for clients on the same side with a better price, or at the same price and ahead in its queue |
| `VenueModel.Venue.ResetDay` | src/t2t/sim/Venue.hpp:425-442 | every client order is cancelled as closed, everything is empty; the feed stays in step if and only if no synthetic order was resting |
| `VenueState.ClearedFeed` | src/t2t/sim/Venue.hpp:439-441 | clearing without deletes leaves the feed right exactly if the venue had announced nothing that still rested |
| `VenueState.WithdrawBooks` | src/t2t/sim/Venue.hpp:325-333 | an order taken off book and live table alone keeps the tables in step if and only if it is not a client's |
| `VenueState.ReplaceFeed` | src/t2t/sim/Venue.hpp:309-311 | one replace message leaves the feed where a delete and an add would |
| `ShadowState.EligibleStable` | src/t2t/sim/Venue.hpp:646-687 | filling or removing one client changes nobody else's eligibility |
| `ShadowState.ShadowStep` | src/t2t/sim/Venue.hpp:661-669 | one fill keeps handed-out plus still-eligible shares constant, through a swap-removal or a partial fill |
| `ShadowState.CrossingStep` | src/t2t/sim/Venue.hpp:636-641 | one crossing fill keeps the account and price priority |
| `OrderManagerModel.OrderManager.AllocRef` | src/t2t/dut/OrderManager.cpp:272-280 | the next user ref, skipping 0 at the wrap, remembered in the ring |
| `OrderManagerModel.OrderManager.SlotByRef` | src/t2t/dut/OrderManager.cpp:324-344 | ring hint or not, the answer is that of a full slot scan |
| `OrderManagerModel.OrderManager.SlotByPending` | src/t2t/dut/OrderManager.cpp:346-355 | the slot awaiting that ref, by scan |
| `OrderManagerModel.OrderManager.ReconcileSlot` | src/t2t/dut/OrderManager.cpp:127-174 | an idle slot with something wanted sends an entry at the target, a live one with nothing wanted a cancel, a live one off its target a replace to it, and nothing is sent exactly when an answer is due or the slot shows its target; the next ref is taken as needed, at the 32-bit wrap too; user refs stay unambiguous if and only if none was taken or the one taken was free |
| `OrderManagerModel.RefsTaken` | src/t2t/dut/OrderManager.cpp:272-280 | taking a ref for an entry or a replace keeps all refs in use distinct if and only if no slot uses it, that is, the wrapped counter has not lapped an open order |
| `OrderManagerModel.OrderManager.ReconcileSymbol` | src/t2t/dut/OrderManager.cpp:90-103 | the requests of both sides at their own targets, the ask first exactly when the new bid would reach the price the ask rests at |
| `OrderManagerModel.OrderManager.OnAck` | src/t2t/dut/OrderManager.cpp:176-238 | for every acknowledgement, dead or live, the one slot that carries its ref becomes what the message says, a fill moves the position by its side, and a message about no slot is counted as unknown |
| `OrderManagerModel.OrderManager.HandleReplaced` | src/t2t/dut/OrderManager.cpp:413-430 | the pending replacement becomes the slot's order, or settles the slot if it arrives dead; others are unknown |
| `OrderManagerModel.OrderManager.HandleExecuted` | src/t2t/dut/OrderManager.cpp:432-452 | fills reduce the slot, move the position and settle it when nothing is left |
| `OrderManagerModel.OrderManager.HandleRejected` | src/t2t/dut/OrderManager.cpp:473-511 | a rejected entry frees the slot, a rejected replace returns it to its old order |
| `ProtocolProof.StepInv` | src/t2t/dut/OrderManager.cpp:391-525 | every step of the joint system keeps the invariant relating slots, channels and the venue's open orders, past wraps of the user-ref counter too |
| `ProtocolProof.FreeUnmentioned` | src/t2t/dut/OrderManager.cpp:272-280 | a user ref that no slot uses is in no message in flight either, so a wrapped counter may reuse it |
| `ProtocolProof.EveryAckIsRecognised` | src/t2t/dut/OrderManager.cpp:527-553 | in every state of every run the count of unknown acknowledgements is 0 |
| `ProtocolProof.OneRequestPerSlot` | src/t2t/dut/OrderManager.cpp:127-174 | each slot has at most one unanswered request, and one exactly while it is pending |
| `ProtocolProof.RequestsAcceptable` | src/t2t/dut/OrderManager.cpp:127-174 | every request reaching the venue uses a ref the venue may take |
| `ProtocolProof.QuiescentAgreement` | src/t2t/dut/OrderManager.cpp:127-174 | with both channels empty each slot is idle with no venue order or live with the venue's ref, price and remaining quantity, and positions equal the shares traded |
| `Convergence.Converges` | src/t2t/dut/OrderManager.cpp:127-174 | in any run, a slot with nothing pending that is given a target, keeps it and hears of no fill or refusal shows it whenever both channels are empty, with exactly that order at the venue, or nothing at all if nothing is wanted |
| `Convergence.HeadingStep` | src/t2t/dut/OrderManager.cpp:391-553 | every other step of the joint system keeps a slot on the way to its target |
| `Trading.TradingLoop.QuoteSymbol` | src/t2t/dut/OrderManager.cpp:90-103 | on the running objects, both sides of a symbol are two quote steps of the protocol and the queue grows by exactly the requests their targets call for, the ask first exactly when the new bid would reach the resting ask |
| `Trading.TradingLoop.DeliverAck` | src/t2t/dut/OrderManager.cpp:176-238 | handing the order manager the oldest acknowledgement is the protocol's delivery step |
| `Trading.TradingLoop.ServeRequest` | src/t2t/sim/ExchangeSession.hpp:661-695 | handing the exchange the oldest request is the protocol's serving step; an entry goes to the first venue trading its slot's symbol, is accepted there on its slot's side if its price is on the grid, and no other venue changes |
| `Trading.TradingLoop.PlayTape` | src/t2t/sim/Venue.hpp:318-422 | a tape event at any venue is the protocol's tape step |
| `Trading.TradingLoop.Agreement` | src/t2t/dut/OrderManager.cpp:391-525 | in every reachable state of these objects no acknowledgement was unknown, and with both channels empty slots and venues agree |
| `Session.Serve` | src/t2t/sim/Venue.hpp:203-316 | to any order-entry message with a usable ref, immediate entries and partial cancels included, one venue answers as `Answer` describes, the first thing wrong deciding the first answer, an immediate order never stays, and its open orders are the fold of the answer |
| `Session.AnswerReply` | src/t2t/sim/Venue.hpp:203-316 | to the order manager's own messages those answers are exactly ones the protocol assumes |
| `Session.Tape` | src/t2t/sim/Venue.hpp:318-422 | each mirror and synthetic call sends clients fills only, consistent with and folding to the venue's open orders |
| `Exchange.ExchangeSession.RememberUserRef` | src/t2t/sim/ExchangeSession.hpp:272-275 | the ring and the memory of where each user ref was last sent stay in step |
| `Exchange.ExchangeSession.VenueForUserRef` | src/t2t/sim/ExchangeSession.hpp:255-269 | in every reachable state, after any history of requests and ring overwrites, the venue whose table holds the user ref |
| `Exchange.ExchangeSession.VenueForSymbol` | src/t2t/sim/ExchangeSession.hpp:245-253 | the first venue of that symbol, the very first if there is none |
| `Exchange.ExchangeSession.Route` | src/t2t/sim/ExchangeSession.hpp:661-691 | entries go by symbol, replaces and cancels to the venue that holds the order they name |
| `Exchange.ExchangeSession.DispatchOuch` | src/t2t/sim/ExchangeSession.hpp:661-695 | an entry reaches the first venue of its symbol and is accepted there exactly if its side is known, its quantity positive and its price on the venue's grid, else refused for the first thing wrong; a replace or cancel reaches the venue whose table holds the order, and a replace is done exactly if the order is open, the quantity positive and the price on that venue's grid; no other venue changes at all; the answer is that of one venue holding all orders, whose books become its fold |
| `Exchange.ExchangeSession.DispatchRequest` | src/t2t/sim/ExchangeSession.hpp:661-695 | to a request of the order manager the answer is one the protocol assumes; an entry from an even slot is a buy, from an odd one a sell, at the venue of its symbol; entries and replaces of open orders are done if their price is on that venue's grid |
| `Exchange.ExchangeSession.Tape` | src/t2t/sim/Venue.hpp:335-422 | any tape or synthetic event at any venue is a tape step of the protocol over all open orders, and no other venue changes |
| `Routing.FrameAcks` | src/t2t/sim/ExchangeSession.hpp:661-695 | one venue's messages mean the same beside other venues' orders |
| `Routing.RoutedAnswer` | src/t2t/sim/ExchangeSession.hpp:661-695 | a venue's answer to a message sent where its order is held is an answer of the one big venue, and every open order is again only where its ref was last sent |
| `Routing.RoutedFills` | src/t2t/sim/Venue.hpp:335-422 | fills at one venue are fills of the one big venue and move no order |
| `BookBuilderModel.BookBuilder.constructor` | src/t2t/dut/BookBuilder.cpp:29-55 | an empty book with the configured ticks, anchored exactly if a price was configured and then around it, below one dollar at the sub-dollar tick |
| `BookBuilderModel.BookBuilder.Anchor` | src/t2t/dut/BookBuilder.cpp:57-106 | the new tick is the finer of the old one and the one the price asks for, the sub-dollar one below one dollar; the band is centred on the tick-aligned price with the configured width or, for a trusted price, possibly more, up to the maximum; by shift or rebuild, both sides equal the view a rebuild from the orders gives, parked shares are those off the new grid, and the version moves |
| `BookBuilderModel.BookBuilder.ShiftLevels` | src/t2t/dut/BookBuilder.cpp:108-137 | the surviving levels move to their new indices, the rest is zero, and exactly the dropped shares are parked within the widened range |
| `BookBuilderModel.BookBuilder.RebuildBits` | src/t2t/dut/BookBuilder.cpp:139-150 | a bit is set exactly for non-empty levels |
| `BookBuilderModel.BookBuilder.Settle` | src/t2t/dut/BookBuilder.cpp:152-161 | the best price is kept while its level holds shares and otherwise searched for in the bitmap |
| `BookBuilderModel.BookBuilder.Shift` | src/t2t/dut/BookBuilder.cpp:85-93 | the in-place shift keeps the invariant on the new band |
| `BookBuilderModel.BookBuilder.Rebuild` | src/t2t/dut/BookBuilder.cpp:163-177 | re-adding every order establishes the invariant on the new band |
| `BookBuilderModel.BookBuilder.OnTradePrice` | src/t2t/dut/BookBuilder.cpp:209-213 | orders unchanged; the traded price ends inside the band at a fine enough tick, and a band where it already was stays |
| `BookBuilderModel.BookBuilder.OnAddOrder` | src/t2t/dut/BookBuilder.cpp:386-404 | the order is added with its side, price and shares, and is our own exactly if its reference is at or above the configured first one; the first order anchors the band; invariant kept; an unchanged version means an unchanged top |
| `BookBuilderModel.BookBuilder.OnOrderReplace` | src/t2t/dut/BookBuilder.cpp:406-428 | the original goes and the replacement enters on its side and as its owner's, whatever the new reference; unknown originals and zero shares included |
| `BookBuilderModel.BookBuilder.ReduceOrder` | src/t2t/dut/BookBuilder.cpp:430-450 | the order loses exactly those shares or goes, over-reduction included, and keeps its owner; on a trade the band follows the order's price exactly if it did not reach it |
| `BookBuilderModel.BookBuilder.RemoveOrder` | src/t2t/dut/BookBuilder.cpp:452-462 | exactly that order goes |
| `BookBuilderModel.BookBuilder.AddLevel` | src/t2t/dut/BookBuilder.cpp:473-496 | one level grows; the version moves exactly when the level is or becomes best |
| `BookBuilderModel.BookBuilder.RemoveShares` | src/t2t/dut/BookBuilder.cpp:498-530 | one level or the parked account shrinks; an unchanged version means an unchanged top |
| `BookBuilderModel.BookBuilder.Clear` | src/t2t/dut/BookBuilder.cpp:318-336 | no orders, band kept, version moved; the early exit leaves the same state as clearing |
| `BookBuilderModel.BookBuilder.Apply` | src/t2t/dut/BookBuilder.cpp:245-316 | one message: the orders, their owners and the band move as that message says, invariant kept, an unchanged version means an unchanged top |
| `BookBuilderModel.BookBuilder.ApplyAll` | src/t2t/dut/BookBuilder.cpp:245-336 | any run of messages and clears: the orders are the fold of the run; those marked our own are exactly those that came in, through any number of replacements, under our references; every level shows the shares of everybody else counted on the folded book; equal wrapped versions fewer than 2^32 steps apart mean an equal top |
| `Ownership.MovesOwned` | src/t2t/dut/BookBuilder.cpp:386-462 | every message keeps the own marks those of the order's first reference: adds decide by their own, replacements hand it on, nothing else changes it |
| `Ownership.DepthTotal` | src/t2t/dut/BookBuilder.cpp:350-358 | the total a level must show is the depth counted on the feed's book and the origins of its orders |
| `QuoteGate.LostExactly` | src/t2t/dut/DutSession.hpp:1288-1296 | with fewer than 2^32 changes since the last quote, a changed top or a requested quote is skipped if and only if an acknowledgement marked the book dirty and its wrapped version equals the mark 2^32 - 1 |
| `QuoteGate.LostInput` | src/t2t/dut/DutSession.hpp:1288-1296 | the failing input: a quote at version 2^32 - 2, an acknowledgement, one change of the top |
| `QuoteGate.LostTop` | src/t2t/dut/DutSession.hpp:1288-1296 | the same on a real book: a better bid arrives, the best bid moves and nothing is quoted |
| `QuoteGate.HotBook.OnMessage` | src/t2t/dut/DutSession.hpp:1286-1297 | skips exactly when the wrapped version equals the mark, with that exact condition for losing anything; otherwise quotes, forgetting first exactly when the remembered version reads as the mark |
| `QuoteGate.HotBook.Quote` | src/t2t/dut/DutSession.hpp:1224-1239 | the remembered version and top are the book's |
| `QuoteGate.HotBook.OnAck` | src/t2t/dut/DutSession.hpp:468-474 | the book is marked dirty and nothing else changes |
| `QuoteGate.HotBook.Run` | src/t2t/dut/DutSession.hpp:1281-1307 | over any run of messages, clears, acknowledgements and forced quotes the returned moments lead from the state before to the state after, each following from the one before by the gate's rule, and the quotes made are exactly those they call for |
| `QuoteGate.PathLosesExactly` | src/t2t/dut/DutSession.hpp:1281-1307 | anywhere in any such run, a message passes over a changed top or a requested quote if and only if it finds the book dirty at the version of the mark |
| `QuoteGate.LastQuote` | src/t2t/dut/DutSession.hpp:1224-1307 | at every moment the gate remembers the version and top of the last quote of the run and exactly whether an acknowledgement came after it |
| `BookBuilderModel.BookBuilder.SizeAt` | src/t2t/dut/BookBuilder.cpp:350-358 | the sum of the others' resting shares at that price and side, 0 off the band grid |
| `BookBuilderModel.BookBuilder.BestPrice` | src/t2t/dut/BookBuilder.cpp:338-344 | the true extreme of the others' in-band prices, and none exactly if there are none |
| `BandOps.PutBookOk` | src/t2t/dut/BookBuilder.cpp:464-471 | adding a fresh order's shares to its level or to the parked account keeps the whole view right |
| `BandOps.LeftBookOk` | src/t2t/dut/BookBuilder.cpp:430-450 | taking any part of an order's shares off keeps the whole view right |
| `BandOps.BuiltUnique` | src/t2t/dut/BookBuilder.cpp:163-177 | sizes, bitmap and best price satisfying the invariant are those of a rebuild, with no freedom left |
| `BandOps.BestExtreme` | src/t2t/dut/BookBuilder.cpp:338-344 | the tracked best is the extreme resting price, in the orders' own terms |
| `BandShift.BandAround` | src/t2t/dut/BookBuilder.cpp:71-75 | the new band starts on a multiple of the tick and contains the anchoring price |
| `BandShift.SurvivorsExact` | src/t2t/dut/BookBuilder.cpp:109-120 | the computed block is exactly the old levels whose index exists in the new band |
| `BandShift.ShiftedLevels` | src/t2t/dut/BookBuilder.cpp:108-137 | when nothing parked can enter, the moved array shows every level's true total |
| `BandShift.OffGridSplit` | src/t2t/dut/BookBuilder.cpp:121-125 | shares off the new grid are those off the old one plus those dropped from either side |
| `BandShift.ClearRange` | src/t2t/dut/BookBuilder.cpp:77-78 | the shiftable test's range condition lets no parked order into the new band |
| `BandShift.SlideOk` | src/t2t/dut/BookBuilder.cpp:85-93 | shifting both sides, rebuilding the bits and re-finding the best prices gives the invariant on the new band |
| `PackedOrder.MakeReads` | src/t2t/dut/BookBuilder.hpp:80-96 | the packed record reads back as the saturating record the book is proved with, for all inputs |
| `PackedOrder.MakeExact` | src/t2t/dut/BookBuilder.hpp:80-88 | shares read back as written if and only if they are below 2^30 |
| `PackedOrder.SetSharesReads` | src/t2t/dut/BookBuilder.hpp:98-100 | storing shares in any 32-bit record disturbs no other field and keeps the shares modulo 2^30, hence exactly below 2^30 |
| `FlatHashMapModel.NextPow2` | src/t2t/util/FlatHashMap.hpp:242-249 | the least power of two at or above n |
| `FlatHashMapModel.FlatHashMap.Probe` | src/t2t/util/FlatHashMap.hpp:93-106 | ends, at the key's slot or at the first gap on its path |
| `FlatHashMapModel.FlatHashMap.Find` | src/t2t/util/FlatHashMap.hpp:93-121 | finds exactly the keys of the map, with their values |
| `FlatHashMapModel.FlatHashMap.InsertOrAssign` | src/t2t/util/FlatHashMap.hpp:123-143 | the map with that entry; the table doubles exactly when one more entry would reach seven tenths of it, and an insertion made by growing never grows again |
| `FlatHashMapModel.FlatHashMap.Grow` | src/t2t/util/FlatHashMap.hpp:267-282 | doubles the capacity and keeps the map |
| `FlatHashMapModel.FlatHashMap.EraseAtHole` | src/t2t/util/FlatHashMap.hpp:161-188 | the map without that key, every remaining key still reachable from its home |
| `FlatHashMapModel.FlatHashMap.Erase` | src/t2t/util/FlatHashMap.hpp:212-221 | removes exactly the key and returns what it held, or reports its absence |
| `FlatHashMapModel.FlatHashMap.Clear` | src/t2t/util/FlatHashMap.hpp:223-230 | an empty map of the same capacity |
| `ProbeTable.GapExists` | src/t2t/util/FlatHashMap.hpp:125-127 | fewer entries than slots leave an empty slot |
| `ProbeTable.ProbeMiss` | src/t2t/util/FlatHashMap.hpp:145-159 | a probe that ends at a gap proves the key absent |
| `ProbeTable.HollowSkip` | src/t2t/util/FlatHashMap.hpp:172-181 | an entry whose home lies cyclically in (hole, scan] keeps its path without the hole |
| `ProbeTable.HollowMove` | src/t2t/util/FlatHashMap.hpp:182-183 | any other entry may fill the hole, and its old slot is the new hole |
| `ProbeTable.HollowEnd` | src/t2t/util/FlatHashMap.hpp:169-171 | at the next gap no path crosses the hole any more |
| `Bits.MaskIsMod` | src/t2t/util/FlatHashMap.hpp:262-265 | masking with a power of two less one is the remainder |
| `DivByModel.Construct` | src/t2t/util/DivBy.hpp:28-66 | for every divisor from 1 and every 32-bit dividend the computed form yields the quotient; the magic is 0 exactly for powers of two |
| `DivByModel.Magic` | src/t2t/util/DivBy.hpp:36-53 | the 32-bit and the 33-bit magic are both exact and never wrap to 0 |
| `DivByModel.MagicExact` | src/t2t/util/DivBy.hpp:60-65 | a multiplier close enough above t/d divides every n exactly |
| `DivByModel.AddCase` | src/t2t/util/DivBy.hpp:61-64 | the overflow-free average recovers the 33-bit product |
| `DivByModel.DoubledMagic` | src/t2t/util/DivBy.hpp:45-53 | doubling with the wrapped remainder's carry gives the 33-bit magic less its top bit |
| `DivByModel.OneBit` | src/t2t/util/DivBy.hpp:29-32 | d and d - 1 share no bit exactly for powers of two, whose trailing zeros are the logarithm |
| `LevelBitsModel.LevelBits.Reset` | src/t2t/dut/LevelBits.hpp:21-26 | an empty set with room for every tick |
| `LevelBitsModel.LevelBits.ClearAll` | src/t2t/dut/LevelBits.hpp:28-35 | an empty set of the same size |
| `LevelBitsModel.LevelBits.Set` | src/t2t/dut/LevelBits.hpp:37-40 | adds exactly that index and keeps the summary exact |
| `LevelBitsModel.LevelBits.Clear` | src/t2t/dut/LevelBits.hpp:42-48 | removes exactly that index and keeps the summary exact |
| `LevelBitsModel.LevelBits.Prev` | src/t2t/dut/LevelBits.hpp:50-69 | the greatest set index at or below i, or none |
| `LevelBitsModel.LevelBits.Next` | src/t2t/dut/LevelBits.hpp:71-91 | the least set index at or above i, or none; the same for every bound that contains the set, so for the grid's number of levels |
| `LevelBitsModel.PrevBySummary` | src/t2t/dut/LevelBits.hpp:57-68 | the last summary bit below the word names the word that holds the answer |
| `Mold.ParseFrame` | src/t2t/protocol/MoldUdp64.hpp:108-120 | reading a framed run back gives the run |
| `Mold.DecodePacket` | src/t2t/protocol/MoldUdp64.hpp:122-141 | encoding then decoding is the identity with contiguous numbers in 64 bits |
| `Mold.PacketWire` | src/t2t/protocol/MoldUdp64.cpp:55-59 | the bytes of a packet: session, eight-byte sequence number and two-byte count most significant byte first, then each message behind its two-byte length and nothing else |
| `Mold.NextMessage` | src/t2t/protocol/MoldUdp64.hpp:108-120 | the next message exactly if all its bytes are there, its length read most significant byte first |
| `Mold.ForEachMessage` | src/t2t/protocol/MoldUdp64.hpp:122-141 | for any bytes, the messages they frame from offset 20 on, lengths, count and sequence number read most significant byte first, until the count or the bytes run out; none for short packets, heartbeats and end of session |
| `MarketData.Packer.Reset` | src/t2t/protocol/MoldUdp64.cpp:14-20 | an empty packet starting at the next sequence number |
| `MarketData.Packer.Append` | src/t2t/protocol/MoldUdp64.cpp:22-33 | takes the message exactly if its bytes and the count fit, and then the buffer frames one more message |
| `MarketData.Packer.Finalize` | src/t2t/protocol/MoldUdp64.cpp:35-38 | the buffer is the packet of the pending messages, byte for byte on the wire |
| `MarketData.MdCapacity` | src/t2t/sim/ExchangeSession.hpp:718-734 | the smaller of the configured limit and what a frame holds, or the whole buffer if that leaves no room for a 62-byte message or exceeds the buffer |
| `MarketData.MdSession.AppendMarketData` | src/t2t/sim/ExchangeSession.hpp:704-716 | the message is taken exactly if it fits an empty packet; earlier messages are kept in order |
| `MarketData.MdSession.FlushMarketData` | src/t2t/sim/ExchangeSession.hpp:736-742 | everything taken has been sent |
| `MarketData.MdSession.Publish` | src/t2t/sim/ExchangeSession.hpp:704-742 | for any interleaving of messages and flushes the packets carry exactly the accepted messages, contiguously numbered |
| `MarketData.SequenceTracker.OnPacket` | src/t2t/dut/SequenceTracker.cpp:7-31 | when a packet is in order, a gap or stale, in 64-bit arithmetic; until the numbers wrap, expected never moves back; only unseen numbers count as missed |
| `MarketData.SequenceTracker.Receive` | src/t2t/dut/SequenceTracker.cpp:7-31 | a contiguous run is in order throughout, counts no fault and yields the stream |
| `MarketData.Deliver` | src/t2t/sim/ExchangeSession.hpp:704-742 | from sender to receiver any stream of messages of at most 62 bytes arrives whole, numbered from 1, all in order |
| `SendRing.DiffExact` | src/t2t/dut/DutSession.hpp:844-845 | positions within 2^31 bytes compare correctly through wrapped keys |
| `SendRing.SendLog.OrderSend` | src/t2t/dut/DutSession.hpp:802-809 | the window gains the send, ending one before the bytes sent, and forgets its oldest exactly when it holds 256; the consumed position never moves back |
| `SendRing.SendLog.OrderCompleteTx` | src/t2t/dut/DutSession.hpp:839-854 | leaves exactly the sends that end after the stamp, matches exactly the one ending there, and never one consumed before |
| `SendRing.SendLog.DrainStamp` | src/t2t/dut/DutSession.hpp:830-833 | a stamp matches if and only if a pending send ends there and its position is not congruent to 2^32 - 1, whose key reads as none |
| `SendRing.SendLog.Run` | src/t2t/dut/DutSession.hpp:790-866 | over any run of sends and stamps the matches are exactly the sends due, reported with their user refs, at strictly increasing positions, so no send is matched twice |
| `SendRing.SwallowedInput` | src/t2t/dut/DutSession.hpp:830-833 | the failing input: a send ending at position 2^32 - 1 and its stamp, which matches nothing |
| `Follower.Follow` | src/t2t/dut/BookBuilder.cpp:245-316 | a book that reads the venue's feed from the start holds exactly the orders the venue announced and still rests |

## Left out

- Sockets, ring transports, DMA, prefetching, threads, timing, statistics of the mirror and the reanchor, rescan and out-of-band counters' exports: no logic that a property depends on.
- QuoterStrategy, ColdShard, BookTable, FeedValidator, SymbolFilter, configuration and address parsing.
- Byte layouts of ITCH and OUCH messages, match numbers, timestamps and client order ids: messages are datatypes; bytes are kept for MoldUDP64 framing.
- The order manager's test orders and per-symbol statistics.
- The strategy behind the quote gate, and the market-hours and feed-validity switches in front of it.
- BookBuilder's count of own orders, which only the early exit of `clear` reads, where an empty order map already implies it is 0; the constructor with a fixed band.
- 32-bit overflow of prices, level totals and band edges: sums are taken to fit.
- FlatHashMap's mixing function: the table is proved for every mixing function and every value type.
- Follower.Follow: speaks of the orders the venue announced itself; tape traffic is forwarded around the venue, and mirrored adds that cross a client are reduced in the venue only.
- Heartbeat and end-of-session packets are decoded and tracked but not produced.
- The in-flight table that a matched stamp is looked up in, and latency recording.
