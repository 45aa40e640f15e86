# Verification of the exchange

A model of the limit-order exchange and proofs of what it promises: price-time priority matching, an
index that always agrees with the book, a risk gate that keeps accounts solvent, a wire format and
request chain that behave like one process, and trade persistence that loses and repeats nothing.

Every component is modelled twice. The objects (`OrderBook`, `MatchingEngine`, `ByteReader`,
`FrameSession`, the processors and dispatchers, the trade consumer) are Dafny classes that update
their fields in place with the loops of the C++. Each of their methods is proved against a function
on plain values, and the guarantees are proved about those functions, for every input and every run.

| file | content |
|---|---|
| `Types.dfy` | bytes, sides, orders, trades, the clock |
| `Matching.dfy` | the reference engine: each side one list in priority order |
| `MatchingLaws.dfy`, `EngineLaws.dfy` | what one match and one operation guarantee, and how operations relate |
| `EngineRuns.dfy` | whole runs of one engine: priority, conservation, numbering |
| `Sequences.dfy`, `Levels.dfy` | price levels against the flat list |
| `Book.dfy`, `MatchingEngine.dfy` | the mutable book with its id index, and the nested matching loops |
| `Codec.dfy`, `Messages.dfy`, `ByteIO.dfy` | the wire format as functions, its laws, and the byte loops |
| `WireFormat.dfy` | every frame byte by byte, and what becomes of frames that are no requests |
| `Frames.dfy` | frames, stream reassembly, both ends of a connection |
| `Exchange.dfy`, `EngineTable.dfy` | one engine per symbol: requests, snapshots, the published stream |
| `Risk.dfy` | the risk gate and the account, in 64-bit arithmetic |
| `Answers.dfy` | what each request is answered with and what it changes, in a client's terms |
| `Sums.dfy`, `Ledger.dfy`, `Accounting.dfy` | what trades cost, and the ledger of buying power over whole runs |
| `Solvency.dfy`, `Overspending.dfy` | runs that stay solvent, and concrete runs that do not |
| `Services.dfy`, `Processors.dfy` | the request path in one process and over three services |
| `Deployments.dfy` | whole runs of these objects, from a client's bytes to the bytes of the answers |
| `Persistence.dfy` | consume, save, commit, with failures and crashes in between |

What the code relies on appears as a precondition:

- A submitted id is not already resting in any engine (`FreshRequest`, `Admissible`). `index_.emplace`
  silently ignores a duplicate, so book and index would part.
- A frame's length prefix is at least 1 (`Defined`), and its body is shorter than 2^32 (`FrameFits`).
- Quantities are positive only where a statement says so. What happens otherwise is stated exactly, for
  instance that a same-price modify to 0 leaves an empty order resting (`ModifyKeepsPositiveIff`,
  `EmptyOrderRests`).
- The cost of a buy fits 64 bits where a statement says so (`CostFits`); the gate itself is modelled in
  64-bit arithmetic. The language leaves signed overflow undefined; the model takes it to wrap around.
- Any side byte other than 0 acts as a sell, as every comparison in the code treats it.
- The clock is an arbitrary function from the number of a reading within a request to its value.

Where comments and code differ, the model follows the code. The comment of `modifyOrder` speaks of
trades on a price change only, while the code re-matches on a quantity increase as well; in an
uncrossed book these trade nothing (`SamePriceNeverTrades`). The matching loop reads the id of an order
it has just erased, for `forgetOrder`; the model reads the id first.

Solvency does not hold as it stands, for three kinds of request (`Overspending.dfy`). Modifies are not
checked against buying power; the sign of a quantity is not checked, so that accepting a buy of a
negative quantity raises buying power; and the cost of a buy is not checked to fit 64 bits, so that it
can wrap around to nothing or below zero. Free, executed and resting value together can then exceed the
initial balance, and buying power can even become negative. What a request will add can be computed
before it is served (`Demand`), and `EveryRunBalances` proves that a run stays within the balance exactly
when every request fits in what is left; `BuyingPowerNeverNegativeIff` says when buying power alone stays
at zero or above. `EveryPrudentRunIsSolvent` proves both for all runs of positive quantities in range
whose modifies do not raise what a buy ties up; a price cap keeps them in range (`CapKeepsGateExact`).

## Model

| member | source | states |
|---|---|---|
| MatchingEngines.MatchingEngine.SubmitOrder | exchange/common/include/common/MatchingEngine.hpp:31-47 | The object ends in the state, and returns the trades, of the flat priority-queue reference: match the opposite side, rest the remainder. |
| MatchingEngines.MatchingEngine.MatchIncoming | exchange/common/include/common/MatchingEngine.hpp:104-144 | One loop body serves both sides: trades, remaining order and opposite side are those of the reference match; the own side does not change. |
| MatchingEngines.MatchingEngine.MatchAgainst | exchange/common/include/common/MatchingEngine.hpp:104-144 | The nested loops over levels and queues, erasing empty levels, compute the reference match on the flat list of opposite orders. |
| MatchingEngines.MatchingEngine.ConsumeLevel | exchange/common/include/common/MatchingEngine.hpp:109-142 | One pass of the outer loop continues the whole match, erases exactly an emptied best level, and otherwise has filled the incoming order. |
| MatchingEngines.MatchingEngine.MatchLevel | exchange/common/include/common/MatchingEngine.hpp:115-136 | The inner loop keeps "trades so far, then the rest" equal to the whole match, and ends with the level empty or the incoming order filled. |
| MatchingEngines.MatchingEngine.FillFront | exchange/common/include/common/MatchingEngine.hpp:117-135 | One pass fills both orders by the smaller remaining quantity, makes a trade of the two at the level price with the next id and the clock reading, and erases a finished maker from its level and the index. |
| MatchingEngines.MatchingEngine.CancelOrder | exchange/common/include/common/MatchingEngine.hpp:52-54 | Removes the order from the book and answers whether it was resting. |
| MatchingEngines.MatchingEngine.ModifyOrder | exchange/common/include/common/MatchingEngine.hpp:69-95 | All three cases give the state and result of the reference modify: unknown id, lost priority, shrink in place. |
| MatchingEngines.MatchingEngine.constructor | exchange/common/include/common/MatchingEngine.hpp:20-20 | A new engine has an empty book and starts trade ids at 1. |
| MatchingLaws.MatchTakesPriorityPrefix | exchange/common/include/common/MatchingEngine.hpp:115-136 | The k-th trade is between the incoming order and the k-th in priority, each on its side, at the resting price, with the k-th next id and the k-th clock reading; every order touched but the last is used up and the rest of the side is untouched. |
| MatchingLaws.MatchStopsOnlyWhenDone | exchange/common/include/common/MatchingEngine.hpp:108-113 | Matching ends only with the incoming order filled, the side empty, or a best price that does not cross. |
| MatchingLaws.MatchConservesQuantity | exchange/common/include/common/MatchingEngine.hpp:119-126 | The incoming order and the opposite side each lose exactly what the trades carry; nothing else of the incoming order changes. |
| MatchingLaws.MatchKeepsPositive | exchange/common/include/common/MatchingEngine.hpp:119-126 | With positive quantities every trade is positive and no empty order is left resting. |
| MatchingLaws.FillIsMaximal | exchange/common/include/common/MatchingEngine.hpp:108-143 | One submission trades exactly the smaller of its quantity and all opposite quantity that crosses, wherever it is queued. |
| MatchingLaws.TradePricesAreFair | exchange/common/include/common/MatchingEngine.hpp:146-159 | Trades execute at the resting price, never above a buyer's or below a seller's limit, and prices move only away from the best. |
| MatchingLaws.TradeCount | exchange/common/include/common/MatchingEngine.hpp:128-135 | The number of trades is the number of orders removed, plus one exactly if the last maker survives in part. |
| MatchingLaws.InsertPlace | exchange/common/include/common/OrderBook.hpp:36-52 | A new order has one place: behind everything equal or better, before everything worse. |
| MatchingLaws.FindIsScan | exchange/common/include/common/OrderBook.hpp:73-79 | Lookup by id succeeds exactly for queued ids and returns the queued order with that id. |
| EngineLaws.SubmitKeepsWellFormed | exchange/common/include/common/MatchingEngine.hpp:31-47 | Submit keeps both sides sorted, with unique ids and right sides, and adds at most the submitted id. |
| EngineLaws.SubmitKeepsUncrossed | exchange/common/include/common/MatchingEngine.hpp:108-113 | A remainder rests only where nothing crosses it, so an uncrossed book stays uncrossed. |
| EngineLaws.UncrossedIff | exchange/common/include/common/OrderBook.hpp:86-97 | A book is uncrossed exactly when a side is empty or its best bid is strictly below its best ask. |
| EngineLaws.TradeParties | exchange/common/include/common/MatchingEngine.hpp:153-159 | The k-th trade of a submission carries the k-th next id, the k-th clock reading and the submitted symbol, and names the submitted order on its own side and one resting opposite order on the other. |
| EngineLaws.ModifyTimes | exchange/common/include/common/MatchingEngine.hpp:83-90 | The trades of a modify are stamped with the readings after the one that stamps the renewed order. |
| Answers.RemainderRests | exchange/common/include/common/MatchingEngine.hpp:40-44 | What a new order does not trade rests as it was sent, among the buys for side 0 and the sells otherwise; one filled whole does not rest. |
| EngineLaws.CancelLaw | exchange/common/include/common/OrderBook.hpp:58-68 | Cancel removes exactly that id, keeps the book well-formed and uncrossed, and is the identity for an unknown id. |
| EngineLaws.FindOrderLaw | exchange/common/include/common/OrderBook.hpp:73-79 | The order found is queued, under that id, on the side its side byte names and only there. |
| EngineLaws.ModifyKeepsInvariants | exchange/common/include/common/MatchingEngine.hpp:69-95 | Modify keeps the book well-formed and uncrossed, adds no id, and answers exactly for resting ids. |
| EngineLaws.ModifyIsCancelThenSubmit | exchange/common/include/common/MatchingEngine.hpp:80-90 | For a price change or quantity increase, the book and trades are those of two requests of a client: a cancel, then a new order under the same id that reads the clock afresh. |
| EngineLaws.ResizeInPlace | exchange/common/include/common/MatchingEngine.hpp:92-94 | Any other modify trades nothing, moves nothing, and changes only that order's quantity. |
| EngineLaws.SamePriceNeverTrades | exchange/common/include/common/MatchingEngine.hpp:66-68 | In an uncrossed book a modify that keeps the price never trades, whatever the quantity. |
| EngineLaws.SubmitThenCancelRestores | exchange/common/include/common/MatchingEngine.hpp:31-54 | Resting an order that crosses nothing, then cancelling it, gives back the whole engine. |
| EngineLaws.SubmitKeepsPositiveIff | exchange/common/include/common/MatchingEngine.hpp:119-126 | Open quantities stay positive exactly when the submitted one is not negative, or trades at once. |
| EngineLaws.ModifyKeepsPositiveIff | exchange/common/include/common/MatchingEngine.hpp:78-93 | Open quantities stay positive exactly for a positive new quantity, zero at a new price, or a negative one that trades at once; so a same-price modify to 0 leaves an empty order resting. |
| EngineRuns.SubmitInPriority | exchange/common/include/common/MatchingEngine.hpp:42-44 | A submit keeps every queue in the order in which its members gained their places; a resting remainder is stamped last. |
| EngineRuns.ModifyInPriority | exchange/common/include/common/MatchingEngine.hpp:76-94 | A modify restamps exactly when it loses priority, and every queue stays in stamp order. |
| EngineRuns.MatchOpen | exchange/common/include/common/MatchingEngine.hpp:119-126 | Each resting order loses exactly what it traded, and the incoming order is a party to every trade. |
| EngineRuns.SubmitOpen | exchange/common/include/common/MatchingEngine.hpp:31-47 | For every id, open plus traded quantity grows by what was submitted under it, and by nothing else. |
| EngineRuns.SubmitVolumes | exchange/common/include/common/MatchingEngine.hpp:31-47 | Each side's total moves by exactly what was submitted and executed on it. |
| EngineRuns.SubmitNumbers | exchange/common/include/common/MatchingEngine.hpp:153-160 | The trades of a submission are numbered consecutively from the counter, which moves past them. |
| EngineRuns.ModifyAccounts | exchange/common/include/common/MatchingEngine.hpp:69-95 | A modify moves both side totals and every order's open quantity by exactly its change and its trades. |
| EngineRuns.ModifyRunsAsTwoRequests | exchange/common/include/common/MatchingEngine.hpp:80-90 | A run with such a modify and a run with the cancel and the new order in its place agree on engine, trades and the quantity given to every id. |
| EngineRuns.StepKeeps | exchange/common/include/common/MatchingEngine.hpp:31-95 | Every single operation keeps the structural and the accounting invariant. |
| EngineRuns.EveryRun | exchange/common/include/common/MatchingEngine.hpp:18-162 | After any run: sorted and uncrossed book, queues in order of gained places, per-side and per-order conservation, trade ids 1, 2, 3, ... without gap. |
| EngineRuns.EveryPositiveRun | exchange/common/include/common/MatchingEngine.hpp:104-144 | After any run of positive quantities no empty order rests, none has more open than it asked for, and every trade is positive. |
| EngineRuns.EmptyOrderRests | exchange/common/include/common/MatchingEngine.hpp:92-93 | A concrete run whose same-price modify to 0 leaves an order of nothing resting. |
| MatchingEngines.ExecuteAll | exchange/common/include/common/MatchingEngine.hpp:18-162 | Any operations in a row take the engine object to the state, and make the trades, of the run they stand for. |
| Book.Order.ApplyFill | exchange/common/include/common/Order.hpp:58-62 | Takes the fill off the remaining quantity and changes nothing else. |
| Book.Order.Modify | exchange/common/include/common/Order.hpp:70-74 | Replaces price, original and remaining quantity and nothing else. |
| Book.PriceLevel.AddOrder | exchange/common/include/common/PriceLevel.hpp:50-55 | Appends a new node at the back and returns that node. |
| Book.PriceLevel.RemoveOrder | exchange/common/include/common/PriceLevel.hpp:59-61 | Erases exactly the given node; the others keep their order. |
| Book.PriceLevel.TotalQuantity | exchange/common/include/common/PriceLevel.hpp:40-46 | The loop sums the remaining quantities of the level. |
| Book.BookSide.TryEmplace | exchange/common/include/common/OrderBook.hpp:44-44 | The level of a price is found, or made at its sorted place, without changing the flat order. |
| Book.BookSide.Unqueue | exchange/common/include/common/OrderBook.hpp:151-165 | Erasing a node through its price removes it from the flat list and drops the level if that empties it. |
| Book.BookSide.FillFront | exchange/common/include/common/MatchingEngine.hpp:123-124 | A fill of the front order changes only its remaining quantity, in the flat list and through the index. |
| Book.BookSide.EraseFront | exchange/common/include/common/MatchingEngine.hpp:128-132 | Erasing the front node drops the first entry of the flat list. |
| Book.BookSide.ResizeOrder | exchange/common/include/common/OrderBook.hpp:140-140 | Changing a node in place is resizing that id in the flat list; its place stays. |
| Book.OrderBook.constructor | exchange/common/include/common/OrderBook.hpp:26-26 | A new book is empty on both sides, with an empty index. |
| Book.OrderBook.AddOrder | exchange/common/include/common/OrderBook.hpp:36-52 | The order is inserted in price-time priority on its side, the index learns its node, the other side does not change. |
| Book.OrderBook.CancelOrder | exchange/common/include/common/OrderBook.hpp:58-68 | Through the index: true exactly for resting ids, and both sides become what a linear scan would remove. |
| Book.OrderBook.RemoveFromLevel | exchange/common/include/common/OrderBook.hpp:151-165 | Removes the indexed node, and its level if that empties it, from the right side only. |
| Book.OrderBook.FindOrder | exchange/common/include/common/OrderBook.hpp:73-79 | Returns the queued object itself, exactly for resting ids, equal to what a scan of its side finds. |
| Book.OrderBook.HasOrder | exchange/common/include/common/OrderBook.hpp:81-83 | True exactly for ids queued on either side. |
| Book.OrderBook.BestBid | exchange/common/include/common/OrderBook.hpp:86-90 | The highest resting buy price, absent exactly when no buy rests. |
| Book.OrderBook.BestAsk | exchange/common/include/common/OrderBook.hpp:93-97 | The lowest resting sell price, absent exactly when no sell rests. |
| Book.OrderBook.ForgetOrder | exchange/common/include/common/OrderBook.hpp:127-129 | Drops one index entry and nothing else. |
| Book.OrderBook.EraseFront | exchange/common/include/common/MatchingEngine.hpp:128-132 | Level erasure followed by forgetOrder brings index and levels back into agreement. |
| Book.OrderBook.EraseLevel | exchange/common/include/common/MatchingEngine.hpp:138-139 | Erasing an empty best level changes no queued order. |
| Book.OrderBook.ModifyRestingOrderQuantity | exchange/common/include/common/OrderBook.hpp:135-142 | True exactly for resting ids; resizes that order in place through the index. |
| Book.OrderBook.IndexIsScan | exchange/common/include/common/OrderBook.hpp:167-171 | The index holds exactly the queued ids, and its entry's side, price and node are those a full scan finds. |
| Levels.AppendIsInsert | exchange/common/include/common/OrderBook.hpp:44-45 | Appending to the queue at an order's price is inserting it in priority order in the flat list. |
| Levels.EraseIsRemove | exchange/common/include/common/OrderBook.hpp:154-157 | Erasing a node from its level is removing its id from the flat list. |
| Levels.QueuedOnce | exchange/common/include/common/OrderBook.hpp:167-170 | No id is queued twice, within a level or across levels. |
| EngineTables.FlatDeterminesLevels | exchange/common/include/common/OrderBook.hpp:105-106 | Only one list of non-empty price levels flattens to a given flat list, so statements about the flat list are statements about the levels. |
| Exchange.SnapshotCounts | exchange/matching_engine/include/matching_engine/MatchingDispatcher.hpp:92-112 | A snapshot accounts for every resting order and its quantity, and shows no empty level. |
| Exchange.SnapshotOrdered | exchange/matching_engine/include/matching_engine/MatchingDispatcher.hpp:102-110 | A snapshot shows each price once, best first. |
| Exchange.ServeKeepsOk | exchange/matching_engine/include/matching_engine/MatchingDispatcher.hpp:24-66 | Every request keeps every engine well-formed and uncrossed and every id resting in at most one engine. |
| Exchange.OnlyTargetChanges | exchange/matching_engine/include/matching_engine/MatchingDispatcher.hpp:29-55 | A request changes at most one symbol's engine; its trades carry that symbol and the next ids of its counter. |
| Exchange.EveryServiceRun | exchange/matching_engine/include/matching_engine/MatchingDispatcher.hpp:24-79 | Over every run the published stream is the concatenation of the acknowledged trades, and each symbol's part is numbered 1, 2, 3, ... without gap or repeat. |
| Answers.NewOrderAnswers | exchange/gateway/include/gateway/InProcessOrderProcessor.hpp:26-36 | The first failed check refuses a new order by name and leaves balance and engines alone; every other order is served by its symbol's engine and acknowledged under its id with its trades, stamped in order, and only a buy pays. |
| Answers.CancelAnswers | exchange/gateway/include/gateway/InProcessOrderProcessor.hpp:38-51 | A cancel is acknowledged exactly when the order rests; then it rests no more and every other order keeps its place, in every engine. Otherwise it is refused and nothing changes. |
| Answers.ModifyAnswers | exchange/gateway/include/gateway/InProcessOrderProcessor.hpp:53-62 | A modify is acknowledged exactly when the order rests, with trades stamped in order; otherwise it is refused and nothing changes. |
| Answers.SmallerModifyAnswers | exchange/common/include/common/MatchingEngine.hpp:92-94 | A modify to no more at the same price is acknowledged without trades and changes only that order's quantity, in no other engine anything. |
| Answers.OtherModifyAnswers | exchange/common/include/common/MatchingEngine.hpp:80-90 | Any other modify gets the engines and the acknowledgement of a cancel and a new order under the same id. |
| Answers.QueryAnswers | exchange/gateway/include/gateway/InProcessOrderProcessor.hpp:64-84 | A book query shows exactly the prices of the buys as bids, falling, and of the sells as asks, rising, each with the number and open quantity of its orders; nothing for an unknown symbol, and nothing changes. |
| Answers.TextBytes | exchange/risk/include/risk/RiskChecker.hpp:18-30 | The text of a refusal travels as the codes of its characters. |
| EngineTables.EngineTable.EnsureEngine | exchange/matching_engine/include/matching_engine/MatchingDispatcher.hpp:74-79 | Makes the engine of a new symbol and changes no other. |
| EngineTables.EngineTable.SubmitOrder | exchange/gateway/include/gateway/InProcessOrderProcessor.hpp:33-35 | The engine objects reach the state and trades of the served request. |
| EngineTables.EngineTable.CancelOrder | exchange/gateway/include/gateway/InProcessOrderProcessor.hpp:45-50 | Trying engines in any order gives the served answer and state. |
| EngineTables.EngineTable.ModifyOrder | exchange/gateway/include/gateway/InProcessOrderProcessor.hpp:55-61 | Trying engines in any order gives the served answer and state. |
| EngineTables.EngineTable.QueryBook | exchange/gateway/include/gateway/InProcessOrderProcessor.hpp:70-83 | The snapshot of the level objects is the aggregation of the flat sides; empty for an unknown symbol. |
| EngineTables.SnapshotSide | exchange/gateway/include/gateway/InProcessOrderProcessor.hpp:75-82 | The loop over levels lists price, total and count of each run of equal prices. |
| Risk.RiskChecker.Check | exchange/risk/include/risk/RiskChecker.hpp:52-74 | In 64-bit arithmetic: accepted exactly for a positive price, a quantity within the maximum and, for a buy, a calculated cost within buying power; what is left is the exact difference as 64 bits hold it, and otherwise the account does not change. |
| Risk.Account.Reserve | exchange/risk/include/risk/Account.hpp:30-32 | Takes the amount off in 64 bits; exact and not negative for a non-negative amount that the caller has checked. |
| Ledger.SubmitLedger | exchange/common/include/common/MatchingEngine.hpp:31-47 | Buys resting, trades executed and price improvement together grow by exactly what the new buy ties up. |
| Ledger.MatchFrees | exchange/common/include/common/MatchingEngine.hpp:119-126 | What resting buys execute and still tie up never exceeds what they tied up before. |
| Accounting.SavedIsImprovement | exchange/common/include/common/MatchingEngine.hpp:108-126 | What a buy saves against its limit is what can be read off the asks before it is matched. |
| Accounting.SettleDemands | exchange/gateway/include/gateway/InProcessOrderProcessor.hpp:26-62 | Every request moves the exposure by exactly the demand computed from the state it arrives in. |
| Accounting.EveryRunBalances | exchange/gateway/include/gateway/InProcessOrderProcessor.hpp:26-62 | Exact ledger over every run and all symbols, 64-bit wraps of the gate included; free, executed and resting value stays within the initial balance all along exactly when each request, before it is served, asks for no more than the balance leaves. |
| Accounting.ModifyWithinReserveIff | exchange/gateway/include/gateway/InProcessOrderProcessor.hpp:53-62 | A modify leaves exposure within any balance exactly when its increase, less the price improvement that the asks before the call offer it, fits; a modify that crosses nothing finds no improvement. |
| Solvency.EveryPrudentRunIsSolvent | exchange/gateway/include/gateway/InProcessOrderProcessor.hpp:26-62 | Over every run of positive quantities whose costs fit 64 bits, without raising modifies, buying power never goes negative and free, executed and resting buy value never exceed the initial balance. |
| Overspending.RaisingModifyBreaksSolvency | exchange/risk/include/risk/RiskDispatcher.hpp:40-45 | A concrete run whose unchecked modify brings exposure to 20 on a balance of 10. |
| Overspending.NegativeQuantityBreaksSolvency | exchange/risk/include/risk/RiskChecker.hpp:53-71 | A concrete run of an accepted buy of -10 and its cancel: buying power 20 and exposure 20 on a balance of 10. |
| Overspending.WrappedCostBreaksSolvency | exchange/risk/include/risk/RiskChecker.hpp:66-70 | A concrete buy of 4 at 2^62, readable from the wire: its cost wraps to 0, it is accepted on a balance of 10, and exposure is 2^64 + 10. |
| Overspending.WrappedCostRaisesBuyingPower | exchange/risk/include/risk/RiskChecker.hpp:66-70 | A concrete buy of a positive quantity, 3 at 2^62, that raises buying power. |
| Overspending.TwoRefundsMakeBuyingPowerNegative | exchange/risk/include/risk/RiskChecker.hpp:66-70 | A concrete run of two buys of a negative quantity, each cost in range, that takes a balance of 10 below zero. |
| Risk.GateRaisesIff | exchange/risk/include/risk/RiskChecker.hpp:52-74 | The gate leaves more buying power than before exactly when it accepts a buy whose calculated cost is negative and what it gives back fits. |
| Risk.GateOverflowsIff | exchange/risk/include/risk/RiskChecker.hpp:65-71 | The gate makes a balance negative exactly when it gives back more than still fits 64 bits. |
| Risk.GateIsExact | exchange/risk/include/risk/RiskChecker.hpp:52-74 | Where the cost and the balance left fit 64 bits, the gate decides and reserves as on exact integers. |
| Risk.CapKeepsGateExact | exchange/risk/include/risk/RiskChecker.hpp:53-71 | A price cap whose product with the maximum quantity fits 64 bits makes the gate exact for every order of a positive quantity. |
| Risk.SlipIff | exchange/risk/include/risk/RiskChecker.hpp:66-70 | The balance left by an accepted buy is right exactly when the exact difference fits 64 bits. |
| Accounting.NewOrderRaisesIff | exchange/gateway/include/gateway/InProcessOrderProcessor.hpp:26-36 | A new order raises exposure exactly when it is an accepted buy that finds less improvement than its wrapped reservation gives away; in range and against positive asks, one of a negative quantity above the best ask. |
| Solvency.BuyingPowerNeverNegative | exchange/risk/include/risk/RiskChecker.hpp:65-71 | Over every run without negative quantities and with costs that fit 64 bits, buying power never becomes negative, whatever the cancels and modifies. |
| Solvency.BuyingPowerNeverNegativeIff | exchange/risk/include/risk/RiskChecker.hpp:65-71 | Over every run buying power stays at zero or above exactly when no buy, before it is checked, would give back more than still fits 64 bits. |
| ByteIO.ByteWriter.WriteUInt32 | exchange/common/include/common/protocol/ByteWriter.hpp:21-26 | The four shifts append the big-endian encoding. |
| ByteIO.ByteWriter.WriteUInt64 | exchange/common/include/common/protocol/ByteWriter.hpp:32-36 | The shift loop appends the big-endian encoding. |
| ByteIO.ByteWriter.WriteInt64 | exchange/common/include/common/protocol/ByteWriter.hpp:28-30 | A signed value is written as its two's complement. |
| ByteIO.ByteWriter.WriteString | exchange/common/include/common/protocol/ByteWriter.hpp:38-43 | Writes the length modulo 2^32 and then every character. |
| ByteIO.ByteReader.ReadBigEndian | exchange/common/include/common/protocol/ByteReader.hpp:26-46 | The accumulating loop reads the value, and refuses exactly when too few bytes are left. |
| ByteIO.ByteReader.ReadInt64 | exchange/common/include/common/protocol/ByteReader.hpp:35-37 | Reads a signed value back through the unsigned conversion. |
| ByteIO.ByteReader.ReadString | exchange/common/include/common/protocol/ByteReader.hpp:48-57 | Reads length and characters, refusing exactly when either is cut short. |
| ByteIO.WriteOrder | exchange/common/include/common/protocol/Serialization.hpp:18-25 | Appends the encoding of the order, whatever follows. |
| ByteIO.ReadOrderFrom | exchange/common/include/common/protocol/Serialization.hpp:27-37 | Reads an order off the front, refusing exactly the truncated inputs. |
| ByteIO.WriteTrade | exchange/common/include/common/protocol/Serialization.hpp:39-47 | Appends the encoding of the trade, whatever follows. |
| ByteIO.ReadTradeFrom | exchange/common/include/common/protocol/Serialization.hpp:49-61 | Reads a trade off the front, refusing exactly the truncated inputs. |
| ByteIO.WriteCancelOrder | exchange/common/include/common/protocol/Messages.hpp:37-39 | Appends the encoding of the message. |
| ByteIO.ReadCancelOrder | exchange/common/include/common/protocol/Messages.hpp:40-42 | Reads the message off the front or refuses. |
| ByteIO.WriteModifyOrder | exchange/common/include/common/protocol/Messages.hpp:44-48 | Appends the encoding of the message. |
| ByteIO.ReadModifyOrder | exchange/common/include/common/protocol/Messages.hpp:49-54 | Reads the message off the front or refuses. |
| ByteIO.WriteOrderAck | exchange/common/include/common/protocol/Messages.hpp:56-62 | Appends id, count and every trade. |
| ByteIO.ReadOrderAck | exchange/common/include/common/protocol/Messages.hpp:63-72 | The loop reads as many trades as the count says, or refuses. |
| ByteIO.WriteOrderReject | exchange/common/include/common/protocol/Messages.hpp:74-77 | Appends the encoding of the message. |
| ByteIO.ReadOrderReject | exchange/common/include/common/protocol/Messages.hpp:78-82 | Reads the message off the front or refuses. |
| ByteIO.WriteBookQuery | exchange/common/include/common/protocol/Messages.hpp:139-141 | Appends the encoding of the message. |
| ByteIO.ReadBookQuery | exchange/common/include/common/protocol/Messages.hpp:142-144 | Reads the message off the front or refuses. |
| ByteIO.WriteBookSnapshot | exchange/common/include/common/protocol/Messages.hpp:158-166 | Appends symbol and both counted level lists. |
| ByteIO.ReadBookSnapshot | exchange/common/include/common/protocol/Messages.hpp:167-180 | Reads symbol and both counted level lists, or refuses. |
| Codec.DecodesToLowBytes | exchange/common/include/common/protocol/ByteReader.hpp:39-46 | Reading n big-endian bytes of a value gives it modulo 256^n. |
| Codec.EncodesBack | exchange/common/include/common/protocol/ByteWriter.hpp:32-36 | Writing a value read from n bytes gives those bytes back. |
| Codec.ReadI64 | exchange/common/include/common/protocol/ByteReader.hpp:35-37 | Signed values, negative ones included, survive the unsigned conversion. |
| Codec.ReadTrades | exchange/common/include/common/protocol/Messages.hpp:56-72 | A counted list of any number of trades is read back, leaving what follows. |
| Codec.CanonTrades | exchange/common/include/common/protocol/Messages.hpp:63-72 | A counted list that can be read was written from that very list. |
| Messages.ReadBack | exchange/common/include/common/protocol/Messages.hpp:37-180 | For every message kind and any trailing bytes: reading what was written succeeds, uses exactly its own bytes, and gives the value back. |
| Messages.RoundTripIff | exchange/common/include/common/protocol/Messages.hpp:37-180 | A message survives the wire exactly when its fields fit their widths and an order has nothing filled. |
| Messages.Canonical | exchange/common/include/common/protocol/ByteReader.hpp:59-64 | Whenever a read succeeds, writing the result gives exactly the bytes consumed. |
| Messages.PrefixRefused | exchange/common/include/common/protocol/ByteReader.hpp:60-64 | Every strict prefix of an encoding is refused. |
| Messages.Append | exchange/common/include/common/protocol/ByteWriter.hpp:15-43 | Writing in front of more bytes is writing, then those bytes. |
| WireFormat.NewOrderFrame | exchange/common/include/common/protocol/Serialization.hpp:18-25 | Length, type 1, id, counted symbol, side, price, quantity, time, byte by byte. |
| WireFormat.CancelFrame | exchange/common/include/common/protocol/Messages.hpp:37-39 | 0 0 0 9, type 2 and the eight bytes of the id. |
| WireFormat.ModifyFrame | exchange/common/include/common/protocol/Messages.hpp:44-48 | 0 0 0 25, type 3, id, price, quantity. |
| WireFormat.AckFrame | exchange/common/include/common/protocol/Messages.hpp:56-62 | Length, type 4, id, count, and seven fields of every trade. |
| WireFormat.RejectFrame | exchange/common/include/common/protocol/Messages.hpp:74-77 | Length, type 5, id, counted reason. |
| WireFormat.QueryFrame | exchange/common/include/common/protocol/Messages.hpp:139-141 | Length, type 8, counted symbol. |
| WireFormat.SnapshotFrame | exchange/common/include/common/protocol/Messages.hpp:158-166 | Length, type 9, counted symbol, counted bids, counted asks; price, quantity and count of each level. |
| WireFormat.TradePayload | exchange/common/include/common/protocol/Serialization.hpp:39-47 | A published trade is its seven fields in order, without a frame. |
| Frames.EncodeFrameBytes | exchange/common/include/common/protocol/Frame.hpp:15-25 | Length, type and payload are laid out in that order. |
| WireFormat.FrameFormat | exchange/common/include/common/protocol/Frame.hpp:15-25 | Four bytes of length for type and payload together, most significant first, then the type, then the payload. |
| Frames.FrameRoundTripIff | exchange/common/include/common/protocol/Frame.hpp:15-59 | A frame is decoded as itself, whatever follows, exactly when its length field does not wrap. |
| Frames.FrameCanonical | exchange/common/include/common/protocol/Frame.hpp:38-59 | What is decoded is what the sender would encode again, and the consumed bytes are exactly its encoding. |
| Frames.PartialFrameWaits | exchange/common/include/common/protocol/Frame.hpp:38-52 | Every strict prefix of a frame makes the decoder wait. |
| Frames.SplitAppend | exchange/common/include/common/net/FrameSession.hpp:48-55 | Decoding what has arrived, then the leftover with what comes next, is decoding the whole stream. |
| Frames.SplitEncoded | exchange/common/include/common/net/FrameSession.hpp:48-55 | A stream of encoded frames splits into exactly those frames. |
| Frames.FrameSession.ProcessCompleteFrames | exchange/common/include/common/net/FrameSession.hpp:48-55 | Handles every complete frame in order, writes one answer each, and leaves exactly the undecoded suffix. |
| Frames.FrameSession.ReadLoop | exchange/common/include/common/net/FrameSession.hpp:32-55 | However the stream is cut into reads, the same frames are handled, the same answers written, and the same suffix left. |
| Frames.SyncTcpClient.SendAndReceive | exchange/common/include/common/net/SyncTcpClient.hpp:38-52 | Returns the first frame of the stream however it is cut, and keeps the bytes behind it. |
| Processors.InProcessOrderProcessor.SubmitOrder | exchange/gateway/include/gateway/InProcessOrderProcessor.hpp:26-36 | Account, engines and result are those of the risk gate followed by the matching service. |
| Processors.InProcessOrderProcessor.CancelOrder | exchange/gateway/include/gateway/InProcessOrderProcessor.hpp:38-51 | As the reference process; no risk check. |
| Processors.InProcessOrderProcessor.ModifyOrder | exchange/gateway/include/gateway/InProcessOrderProcessor.hpp:53-62 | As the reference process; no risk check. |
| Processors.InProcessOrderProcessor.QueryBook | exchange/gateway/include/gateway/InProcessOrderProcessor.hpp:64-84 | The snapshot of the reference process; nothing changes. |
| Processors.MatchingDispatcher.Handle | exchange/matching_engine/include/matching_engine/MatchingDispatcher.hpp:24-66 | Response bytes, engine states and published trades for every frame, well-formed or not. |
| Processors.MatchingDispatcher.PublishAll | exchange/matching_engine/include/matching_engine/MatchingDispatcher.hpp:69-72 | Hands the trades to the sink in order, each once. |
| Processors.RiskDispatcher.Handle | exchange/risk/include/risk/RiskDispatcher.hpp:27-55 | Response bytes, account and engine states for every frame whose answer fits a frame, over the framed hop to the engine. |
| Processors.RiskDispatcher.ForwardToMatchingEngine | exchange/risk/include/risk/RiskDispatcher.hpp:58-62 | Sends the frame on unchanged and passes the answer back re-encoded. |
| Processors.RemoteOrderProcessor.SubmitOrder | exchange/gateway/include/gateway/RemoteOrderProcessor.hpp:19-25 | The result is the decoded answer of the framed call to Risk. |
| Processors.RemoteOrderProcessor.CancelOrder | exchange/gateway/include/gateway/RemoteOrderProcessor.hpp:27-33 | The result is the decoded answer of the framed call to Risk. |
| Processors.RemoteOrderProcessor.ModifyOrder | exchange/gateway/include/gateway/RemoteOrderProcessor.hpp:35-42 | The result is the decoded answer of the framed call to Risk. |
| Processors.RemoteOrderProcessor.QueryBook | exchange/gateway/include/gateway/RemoteOrderProcessor.hpp:44-55 | The decoded snapshot, or nothing for an answer of another type. |
| Processors.RemoteOrderProcessor.ReadResult | exchange/gateway/include/gateway/RemoteOrderProcessor.hpp:58-65 | An ack is read as an ack, everything else as a reject. |
| Processors.MessageDispatcher.Handle | exchange/gateway/include/gateway/MessageDispatcher.hpp:24-63 | Over the in-process or the remote processor alike, response bytes, account and engines are those of one process. |
| WireFormat.RequestsRead | exchange/gateway/include/gateway/MessageDispatcher.hpp:30-46 | The bytes of each request, as laid out by a client, are read as that request, whatever follows them. |
| WireFormat.UnreadableIff | exchange/common/include/common/protocol/ByteReader.hpp:60-64 | A request cannot be read exactly when its payload is too short for its fields. |
| WireFormat.OtherFramesRefused | exchange/gateway/include/gateway/MessageDispatcher.hpp:54-62 | Frames of types other than 1, 2, 3 and 8, and requests that cannot be read, get the bytes of a refusal under id 0 that says so, and change nothing. |
| Deployments.HandleAll | exchange/gateway/include/gateway/MessageDispatcher.hpp:24-63 | For every sequence of frames, the dispatcher object over either processor gives the responses, account and engines of one process. |
| Deployments.GatewaySession.ProcessCompleteFrames | exchange/common/include/common/net/FrameSession.hpp:48-55 | With the gateway object as its handler, the session takes every complete frame off its inbox and answers it as one process does. |
| Deployments.GatewaySession.Serve | exchange/common/include/common/net/FrameSession.hpp:32-65 | However a client cuts its bytes into reads, the session over the gateway object writes exactly the responses of one process to the frames they hold, leaves account and engines in that state, and keeps exactly the bytes behind. |
| Deployments.RunSettles | exchange/gateway/include/gateway/InProcessOrderProcessor.hpp:26-84 | The process and the ledger run alike: same buying power, same engines. |
| Deployments.HandlePrudently | exchange/gateway/include/gateway/InProcessOrderProcessor.hpp:26-62 | Driven by prudent requests, the account object never becomes negative and the exposure behind it never exceeds its initial balance. |
| Deployments.PublishAlong | exchange/matching_engine/include/matching_engine/MatchingDispatcher.hpp:24-72 | Over any frames, the engines and the trades handed to the sink by the matching service object are those of the service run whose numbering is proved. |
| Deployments.ServeRemotely | exchange/gateway/include/gateway/RemoteOrderProcessor.hpp:14-55 | Gateway, risk and matching engine objects, from construction on, answer the bytes of a client, cut in any way, like one process. |
| Deployments.ServeLocally | exchange/gateway/include/gateway/InProcessOrderProcessor.hpp:23-84 | The in-process deployment, from construction on, gives those same answers to the same bytes. |
| Processors.EncodeResult | exchange/gateway/include/gateway/MessageDispatcher.hpp:66-81 | The response is the framed encoding of the result. |
| Services.RequestSurvives | exchange/gateway/include/gateway/RemoteOrderProcessor.hpp:19-42 | A request read from a frame fits a frame again and is read back as itself. |
| Services.AnswerSurvives | exchange/gateway/include/gateway/RemoteOrderProcessor.hpp:58-65 | An answer that fits a frame is relayed byte for byte, even where a field wraps. |
| Services.MatchingAnswers | exchange/risk/include/risk/RiskDispatcher.hpp:58-62 | Forwarding reaches the engines with the same request and returns the very bytes they answered. |
| Services.ChainStep | exchange/risk/include/risk/RiskDispatcher.hpp:27-62 | One frame through gateway, risk and engine gives the bytes, account and engines of the single process. |
| Services.ChainRefinesProcess | exchange/gateway/include/gateway/RemoteOrderProcessor.hpp:19-65 | For every sequence of frames the distributed chain answers with byte-identical responses and ends in the same state as the single process. |
| Persistence.DedupIsFirstOccurrences | exchange/persistence/include/persistence/PostgresTradeRepository.hpp:38-49 | Inserting with conflicts ignored keeps exactly the first trade of each key, in order. |
| Persistence.DedupUnique | exchange/persistence/include/persistence/PostgresTradeRepository.hpp:29-29 | No key is stored twice. |
| Persistence.EveryInterleaving | exchange/persistence/include/persistence/KafkaTradeConsumer.hpp:53-76 | Under any interleaving of produces, polls, failed saves, failed commits and crashes the table is the de-duplicated prefix of the log, at least as long as the committed offset. |
| Persistence.CommitsOnlyAfterSave | exchange/persistence/include/persistence/KafkaTradeConsumer.hpp:70-76 | Nothing is committed but an entry whose save has succeeded in the same poll, and a save succeeds only with the key in the table. |
| Persistence.NothingLostNothingTwice | exchange/persistence/include/persistence/KafkaTradeConsumer.hpp:70-76 | Every committed log entry's key is stored, and no key twice. |
| Persistence.CommittedTradesAreStored | exchange/persistence/include/persistence/KafkaTradeConsumer.hpp:53-76 | Where equal keys carry equal trades, every committed trade itself is stored. |
| Exchange.NumberingIsKey | exchange/persistence/include/persistence/PostgresTradeRepository.hpp:29-29 | Within one engine lifetime symbol and trade id are a key: later trades of a symbol carry larger ids. |
| Persistence.PublishedPrefixIsStored | exchange/persistence/include/persistence/KafkaTradeConsumer.hpp:53-76 | While the log holds what one service lifetime published, the table holds exactly a prefix of the published trades, with every committed one in it; equal keys carry equal trades. |
| Persistence.PostgresTradeRepository.Save | exchange/persistence/include/persistence/PostgresTradeRepository.hpp:38-49 | Adds the row if its key is absent and the transaction is applied, and reports success only then. |
| Persistence.KafkaTradeConsumer.PollOnce | exchange/persistence/include/persistence/KafkaTradeConsumer.hpp:53-76 | One poll is consume, save, commit of the state machine, stopping where the code throws. |
| Persistence.KafkaTradeConsumer.Resume | exchange/persistence/include/persistence/KafkaTradeConsumer.hpp:13-20 | A restarted consumer continues from the committed offset. |

## Left out

- Fixed-width arithmetic outside the gate: fills, level totals and trade ids are mathematical integers; only their encodings are taken modulo 2^64 or 2^32. Fills stay in range for positive quantities (`EveryPositiveRun`); a fill of a negative quantity could overflow.
- Duplicate ids: behaviour after a submitted id that is already resting.
- Frames of length prefix 0, for which the decoder reads outside the frame, and responses whose length field would wrap around.
- Sockets, Asio callbacks, ZeroMQ, librdkafka and pqxx: only inbox buffers, a log with offsets and a table keyed by symbol and trade id remain. A blocking read that never completes a response, a lost connection, and the service mains with their retry loops are not modelled.
- Kafka produce failures, which the code only logs: persistence statements start at the log.
- Engine restarts, after which trade ids begin again at 1: one engine lifetime is modelled.
- Concurrency: requests are handled one at a time, as the engine is single-threaded by design.
- Hash iteration order of the engine tables is any order; the answer is proved not to depend on it. The identical tables of the in-process processor and the matching dispatcher are one class here.
- A `std::map` of levels is a sorted sequence searched from the front, and a list iterator is the node object itself, looked up in its level when it is erased: the order and identity of entries are captured, the cost of each step is not.
- `IOrderProcessor` is a tagged union of its two implementations, and the handler of the generic session is a function of the frames handled before; the session over the gateway object is a class of its own.
- Timestamps: the Postgres conversion to seconds and the range of its BIGINT columns.
- Memory: `reserve(count)` for a large count may fail in C++ before the truncated list is noticed.
- The MarketDataSnapshot message, MarketDataStore, TradeTicker, TradeEventHandler, Logger, CommandParser and the console client: last-value overwrites, printing and plumbing that would only add easy members.
