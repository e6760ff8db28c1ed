/** The plain records the trading functions exchange (TradingFunctionDurable/EntityModel),
    and the host's vocabulary for addressing entities and signalling them. */
module EntityModel {
  import opened Runtime

  /** `TradeAction`: the enum is not part of this model's source; Buy and Sell are the values used. */
  datatype TradeAction = Buy | Sell

  /** `TradeStatus`: the enum is not part of this model's source. The code
      writes only Pending and Executed; Completed is the third stage of a trade. */
  datatype TradeStatus = Pending | Executed | Completed

  /** `Trade`. String nullability is not modelled for its fields. */
  datatype Trade = Trade(
    tradeId: string,
    stockSymbol: string,
    quantity: int32,
    action: TradeAction,
    status: TradeStatus,
    isSoftDeleted: bool)

  /** `TradeInfo`: what a client supplies to open a trade. */
  datatype TradeInfo = TradeInfo(stockSymbol: string, quantity: int32, action: TradeAction)

  /** `TradingBrokerState`: the entity's whole durable state. */
  datatype TradingBrokerState = TradingBrokerState(
    activeTrade: Option<Trade>,
    isDeleted: bool,
    remarks: Option<string>)

  /** `new TradingBrokerState()`: no trade, not deleted, no remarks. */
  const EmptyState: TradingBrokerState := TradingBrokerState(None, false, None)

  /** A point in time, as read from the clock. */
  datatype DateTime = DateTime(ticks: int)

  /** `TradeCompletionInfo`. Strings left unassigned are null; decimals left unassigned are 0. */
  datatype TradeCompletionInfo = TradeCompletionInfo(
    remarks: Option<string>,
    completionDate: DateTime,
    completedBy: Option<string>,
    completionStatus: Option<string>,
    reasonForFailure: Option<string>,
    finalTradeValue: real,
    fees: real,
    tax: real)

  /** The host's address of an entity instance: the entity function's name and a key. */
  datatype EntityId = EntityId(name: string, key: string)

  /** The name under which the broker entity function is registered. */
  const BrokerEntityName: string := "RunTradingBrokerEntity"

  /** `new EntityId(nameof(TradingBrokerEntity.RunTradingBrokerEntity), key)`. */
  function BrokerId(key: string): EntityId
  {
    EntityId(BrokerEntityName, key)
  }

  /** The payload an operation carries, in the shape its sender gave it
      (a missing payload reads as null). */
  datatype OperationInput =
    | NoInput
    | TradeInfoInput(info: TradeInfo)
    | TradeInput(trade: Trade)
    | RemarksInput(remarks: string)

  /** A one-way message to an entity: target, operation name, payload. */
  datatype Signal = Signal(target: EntityId, operation: string, input: OperationInput)

  /** `EntityStateResponse<T>`: whether the host holds state for an entity, and that state. */
  datatype EntityStateResponse<+T> = Missing | Exists(state: T)
}
