# Trading broker: a Dafny model of the entity, settlement, polling and gateway logic

This project models the core of a Durable Functions trading platform written in C#:

- **The trading-broker entity** (`EntityTrigger`). It holds one `TradingBrokerState` per key and handles the operations `initiatetrade`, `executetrade` and `completetrade`, matched after lower-casing. Initiation replaces the whole state with a fresh Pending trade and signals the entity itself with the orchestrator's name. Execution marks the active trade Executed. Completion sets the deleted flag and the remarks. Any exception resets the state to empty and is rethrown.
  - `Transition` is the specification function for one operation.
  - `TradingBrokerEntity` is a class with the state and an outbox of sent signals. Its `Apply` method updates them in place and is proved equal to `Transition`.
  - Lemmas cover single operations (replacement, idempotence, the reset path, case-insensitive names) and whole sequences of operations (the state invariant, and one signal per opened trade).
- **Settlement** (`Processor`). `CompleteTrade` computes value = quantity × 50 in 32-bit `int`, then fees at 2% and tax at 5% of that value. The success decision is a constant true. `Settle` keeps the branch structure, with the failure branch reachable only by its parameter.
- **Activities** (`ActivityTrigger`).
  - `RunExecuteTrade` gives the result string of the stand-in execution. `ExecutedTradeId` parses the id back out of that string.
  - `WaitForTradeExecutionCompletion` is the bounded polling loop: at most 10 reads of the broker entity, with a 10-second sleep after each read that finds the entity missing or its trade not yet Executed. A read that throws, or that finds no active trade, ends the poll with the exception rethrown and no sleep. It is proved against `FirstDecisive`, `PollTrace` and `PollResult`.
- **The HTTP gateway** (`HttpStart`). The four handlers are pure decision functions. Each maps the route values and the host's answers to its awaited calls onto a status code, a response body and at most one signal.

`Runtime` holds what the C# code relies on from .NET: null references, exceptions from awaited calls, 32-bit `int` wrap-around and lower-casing. `EntityModel` mirrors the records of `TradingFunctionDurable/EntityModel`.

Behaviours of the code that the model makes explicit:

- The signal sent on initiation goes to the entity itself with the operation name `RunTradeExecutionOrchestratorAsync`. That name matches none of the entity's cases, so delivering the signal changes nothing (`OrchestratorSignalIgnored`).
- `FinalizeTradeFunction` reads entity name `TradingBrokerEntity`. Every signal in the system addresses `RunTradingBrokerEntity`, so finalization finds nothing (`FinalizeMissesBrokerEntities`).
- `Quantity * 50` wraps around in 32-bit `int`. Up to 42949672 shares the value is exact. From 42949673 to 85899345 shares the trade is valued at a negative amount; at 42949673 the value is -2147483646 (`ValueWrapsPastBound`).
- A GET for `initiatetrade` or `executetrade` on an existing state with no active trade dereferences null and answers 500. Such a state is what the entity leaves after a fault (`GetFollowsEntity`).

Facts about the code's life cycle that a reader might expect otherwise:

- The entity handles three operations, `initiatetrade`, `executetrade` and `completetrade` (TradingFunctionDurable/EntityTrigger/TradingBrokerEntity.cs:26-50). Any other name falls through the switch and changes nothing.
- `executetrade` on a state with no active trade has no check of its own. It dereferences null (TradingBrokerEntity.cs:42), and the catch resets the state to empty and rethrows (TradingBrokerEntity.cs:53-56).
- No code writes the status `Completed`. `completetrade` sets only the deleted flag and the remarks (TradingBrokerEntity.cs:47-48). A new `initiatetrade` replaces an Executed trade with a Pending one (TradingBrokerEntity.cs:28-37).

Assumption: reading the state of a key that was never written yields the empty state (no trade, not deleted, no remarks). This is what the `TradingBrokerEntity` constructor starts from; the host library decides it.

## Model

| member | source | states |
|---|---|---|
| `Runtime.ToLower` | TradingFunctionDurable/EntityTrigger/TradingBrokerEntity.cs:24 | Lower-casing keeps the length, leaves no ASCII capital, maps each capital to its small letter and keeps every other character |
| `Runtime.ToLowerIdempotent` | TradingFunctionDurable/HttpStart/TradingBrokerHttpFunctions.cs:58 | Lower-casing a lower-cased name changes nothing |
| `Runtime.Wrap32` | TradingFunctionDurable/Processor/TradeManager.cs:30 | The 32-bit result equals the exact one when it fits and is congruent to it modulo 2^32 always |
| `EntityTrigger.Transition` | TradingFunctionDurable/EntityTrigger/TradingBrokerEntity.cs:18-58 | One operation sends at most one signal; a fault leaves the empty state and sends nothing; an unknown name changes nothing; any signal is the initiation's self-signal carrying the new trade; the state invariant is preserved; a trade becomes Pending only through a successful `initiatetrade` |
| `EntityTrigger.TradingBrokerEntity.constructor` | TradingFunctionDurable/EntityTrigger/TradingBrokerEntity.cs:23 | A never-written entity starts from the empty state with nothing sent |
| `EntityTrigger.TradingBrokerEntity.Apply` | TradingFunctionDurable/EntityTrigger/TradingBrokerEntity.cs:18-58 | The in-place update leaves exactly the state `Transition` gives, appends exactly its signals to the outbox and returns its result |
| `EntityTrigger.InitiateReplacesState` | TradingFunctionDurable/EntityTrigger/TradingBrokerEntity.cs:26-38 | `initiatetrade` replaces the whole state by a Pending trade with id = entity key and the payload's symbol, quantity and action, not deleted and without remarks, and sends one signal to the entity itself carrying that trade |
| `EntityTrigger.InitiateLastWriterWins` | TradingFunctionDurable/EntityTrigger/TradingBrokerEntity.cs:37 | After two initiations the state is the one the second alone would give |
| `EntityTrigger.InitiateWithoutPayloadFaults` | TradingFunctionDurable/EntityTrigger/TradingBrokerEntity.cs:27-31 | `initiatetrade` with no payload dereferences null: empty state, no signal, exception rethrown |
| `EntityTrigger.ExecuteMarksExecuted` | TradingFunctionDurable/EntityTrigger/TradingBrokerEntity.cs:40-44 | `executetrade` on an active trade sets its status to Executed, keeps every other field and the flag and remarks, and ignores the payload's fields |
| `EntityTrigger.ExecuteIdempotent` | TradingFunctionDurable/EntityTrigger/TradingBrokerEntity.cs:40-44 | `executetrade` twice has the effect of once |
| `EntityTrigger.ExecuteWithoutTradeResets` | TradingFunctionDurable/EntityTrigger/TradingBrokerEntity.cs:42-57 | `executetrade` with no active trade resets to the empty state and rethrows the null dereference |
| `EntityTrigger.CompleteSetsRemarks` | TradingFunctionDurable/EntityTrigger/TradingBrokerEntity.cs:45-50 | `completetrade` sets the deleted flag and the remarks and leaves the active trade untouched |
| `EntityTrigger.CompleteIdempotent` | TradingFunctionDurable/EntityTrigger/TradingBrokerEntity.cs:45-50 | Repeating `completetrade` with the same payload leaves the state as after the first |
| `EntityTrigger.NamesMatchIgnoringCase` | TradingFunctionDurable/EntityTrigger/TradingBrokerEntity.cs:24 | Two names equal after lower-casing have the same effect |
| `EntityTrigger.OrchestratorSignalIgnored` | TradingFunctionDurable/EntityTrigger/TradingBrokerEntity.cs:36 | The initiation's signal targets the entity itself, and on delivery it matches no case and changes nothing |
| `EntityTrigger.RunKeepsInvariant` | TradingFunctionDurable/EntityTrigger/TradingBrokerEntity.cs:24-57 | Over any sequence of operations from the empty state, a trade in the state has the entity's key, is not soft-deleted and is Pending or Executed; no operation writes any other status |
| `EntityTrigger.RunSignalsPerInitiation` | TradingFunctionDurable/EntityTrigger/TradingBrokerEntity.cs:36 | Over any sequence of operations, the signals sent are exactly one per trade-opening `initiatetrade`, all to the entity itself with the orchestrator's name |
| `EntityTrigger.TesterScenario` | TradingFunctionEntityDurableTester/Program.cs:17-39 | Initiate (AAPL, 100, Buy) on a fresh entity gives that trade Pending; executing it gives it Executed with the other fields unchanged; one self-signal is sent |
| `Processor.Settle` | TradingFunctionDurable/Processor/TradeManager.cs:16-42 | On success the value is the 32-bit value of quantity × 50, fees are 1/50 and tax 1/20 of it, with status Successful and no failure reason. On failure, status Failed with reason and remarks, and value, fees and tax keep 0. The completing party and date are set either way |
| `Processor.CompleteTrade` | TradingFunctionDurable/Processor/TradeManager.cs:16-42 | Always Successful by AutomatedSystem with the success remarks and no failure reason. For a quantity up to 42949672 in magnitude, value = 50·q, fees = q and tax = 2.5·q. For a non-negative such quantity, 0 ≤ fees ≤ tax ≤ value |
| `Processor.HundredSharesExample` | TradingFunctionDurable/Processor/TradeManager.cs:30-32 | Quantity 100 settles at value 5000, fees 100, tax 250 |
| `Processor.DependsOnlyOnQuantity` | TradingFunctionDurable/Processor/TradeManager.cs:16-42 | Two trades with equal quantity settle identically at the same date |
| `Processor.ValueWrapsPastBound` | TradingFunctionDurable/Processor/TradeManager.cs:30 | For quantities 42949673 to 85899345 the value wraps once to 50 × quantity − 2^32, which is negative, and so are fees and tax; at 42949673 it is −2147483646 |
| `ActivityTrigger.RunExecuteTrade` | TradingFunctionDurable/ActivityTrigger/TradeExecutionActivities.cs:34-47 | Never throws; for a trade, the message parses back to that trade's id; for a null trade, the null-dereference message, which parses to no id |
| `ActivityTrigger.FirstDecisive` | TradingFunctionDurable/ActivityTrigger/TradeExecutionActivities.cs:67-78 | The attempt found is the first within the budget whose read sees the trade Executed or faults, every earlier read being undecided, or the budget itself when there is none |
| `ActivityTrigger.RoundsCounts` | TradingFunctionDurable/ActivityTrigger/TradeExecutionActivities.cs:67-81 | n undecided attempts make n reads, all of the same entity, and n sleeps of 10 s |
| `ActivityTrigger.PollTraceBudget` | TradingFunctionDurable/ActivityTrigger/TradeExecutionActivities.cs:64-83 | A poll makes 1 to 10 reads, all of the broker entity keyed by the trade id, and sleeps at most 100 s. Decided at attempt k, it made k+1 reads and k sleeps and ended on a read. Given up, it made 10 reads and 10 sleeps and ended on a sleep |
| `ActivityTrigger.WaitForTradeExecutionCompletion` | TradingFunctionDurable/ActivityTrigger/TradeExecutionActivities.cs:57-90 | The loop stops right after the first read that sees Executed (normal return) or faults (rethrown), with no further read or sleep. It gives up after the 10th sleep exactly when no read within the budget decides. It returns normally with Executed seen exactly when some read sees Executed after only undecided reads |
| `HttpStart.RunTradingBrokerHttpStart` | TradingFunctionDurable/HttpStart/TradingBrokerHttpFunctions.cs:46-96 | The POST answers 200, 400 or 500. It answers 400 with the invalid-operation text, and sends nothing, exactly when the body was read and the lower-cased type is none of the three operations. It answers 200 with `{operationType} operation completed.` exactly when the body was read, the operation is one of the three and every later call succeeded. It sends a signal exactly when it reaches the signal call and that call succeeds. The signal goes to the broker entity keyed by the route. It is `initiateTrade` or `executeTrade` carrying the body read as TradeInfo (null when absent), or `completetrade` carrying the body text. An exception from the body read, the text read, the signal or the follow-up read answers 500 with that exception's message |
| `HttpStart.PostIgnoresExistenceCheck` | TradingFunctionDurable/HttpStart/TradingBrokerHttpFunctions.cs:78-87 | Whether the follow-up read finds the entity does not change the response |
| `HttpStart.PostSignalTakesEffect` | TradingFunctionDurable/HttpStart/TradingBrokerHttpFunctions.cs:58-70 | The signal of a successful POST, delivered to the entity, does what the request names: opens a Pending trade of the body, or faults on a missing body; marks an active trade Executed; records the body as remarks |
| `HttpStart.RunGetBrokerState` | TradingFunctionDurable/HttpStart/TradingBrokerHttpFunctions.cs:108-169 | The GET sends no signal. It answers 404 with `Trading broker entity not found.` exactly when the entity is missing, whatever the operation. It answers 200 with the state exactly when the state has a trade that is Pending for `initiatetrade` or Executed for `executetrade`. On an existing entity with no trade, both operations answer 500 with the null-dereference message. A trade at the wrong stage answers 400 with `Trade has already been processed or executed.` for `initiatetrade` and `Trade has not been executed yet.` for `executetrade`. Any other operation on an existing entity answers 400 with the invalid-operation text. A failed read answers 500 with its message |
| `HttpStart.GetFollowsEntity` | TradingFunctionDurable/HttpStart/TradingBrokerHttpFunctions.cs:127-160 | Reading the state an operation left: after a successful initiation, GET `initiatetrade` answers 200 with it; after a successful execution, GET `executetrade` does; after a fault, both answer 500 with the null dereference |
| `HttpStart.SignalTradeCompletion` | TradingFunctionDurable/HttpStart/TradingBrokerHttpFunctions.cs:178-201 | Answers 200 exactly when the body was read and the signal sent. The one signal is `completetrade` to the broker entity keyed by the route and carries the body. Otherwise it answers 500 with the thrown message and no signal |
| `HttpStart.CompletionSignalTakesEffect` | TradingFunctionDurable/HttpStart/TradingBrokerHttpFunctions.cs:185-187 | The completion signal, delivered, sets the deleted flag and the body as remarks and keeps the trade |
| `HttpStart.FinalizeTradeFunction` | TradingFunctionDurable/HttpStart/TradingBrokerHttpFunctions.cs:211-247 | Reads entity `TradingBrokerEntity`. Answers 404 with the not-found text when it is absent, 200 with `CompleteTrade` of the trade read and the current date when present, and 500 with the message when the read throws. It sends no signal |
| `HttpStart.FinalizeMissesBrokerEntities` | TradingFunctionDurable/HttpStart/TradingBrokerHttpFunctions.cs:218-227 | If the host holds state only under `RunTradingBrokerEntity`, finalization answers 404 for every trade id |

## Left out

- The Durable Functions host is not modelled: persistence, replay, per-key serialisation and at-least-once signal delivery. Operations on one entity are applied one at a time, in order.
- Whether the host keeps the reset state after an operation rethrows, or rolls the operation back, is decided by the host library. The model keeps what the `catch` block writes.
- The orchestrator (`TradingFunctionDurable/TradingBrokerEntityDurableFunctions.cs`) is not part of this model. Its one effect on the entity is an `executetrade` operation, covered by `ExecuteMarksExecuted`. Its 10-minute wait for an external event is not modelled.
- JSON deserialization is not modelled. That covers `GetInput<T>()`, `ReadAsAsync<TradeInfo>` and `ReadEntityStateAsync<Trade>`. An operation payload is given in the shape its sender used; a Trade and a TradeInfo payload read as each other; no payload reads as null; a string payload cannot be read as an object, nor an object as a string.
- Strings are never null in the model except the remarks and the fields of `TradeCompletionInfo`.
- `ToLower` maps only the ASCII letters; culture-specific and non-ASCII case mapping is not modelled.
- The `TradeStatus` and `TradeAction` enums are not part of this model's source. `TradeStatus` is Pending, Executed or Completed, and `TradeAction` is Buy or Sell.
- The clock (`DateTime.UtcNow`) is a parameter. `Task.Delay` is left out in `RunExecuteTrade` and counted as a 10-second sleep event in the poller. Cancellation is not modelled.
- Logging is not modelled. The poller's warning on giving up and its error log before rethrowing are represented only by the outcomes `GaveUp` and `Rethrown`.
- HTTP response objects are reduced to a status code and a body. The JSON serialisation of the state and of the completion info is represented by the value serialised.
- `RunTradingBrokerHttpStart`: when the signal call itself throws, the model records no signal sent, though the host may already have enqueued it.
- Entity operations for soft-deleting a trade, soft-deleting the state or finalizing a trade do not exist in the entity's code and are not modelled. `Trade.IsSoftDeleted` is never written.
- Dependency-injection wiring (`TradingFunctionDurable/Startup.cs`) is not part of this model. The console client (`TradingFunctionEntityDurableTester/Program.cs`) appears only as the `TesterScenario` method.
