/** The settlement calculator (TradingFunctionDurable/Processor/TradeManager.cs):
    a fresh `TradeCompletionInfo` built from a trade's quantity, fixed prices
    and the clock. */
module Processor {
  import opened Runtime
  import opened EntityModel

  /** The largest quantity whose value `quantity * 50` fits a 32-bit `int`. */
  const MaxExactQuantity: int := 42949672

  const CompletedBy: string := "AutomatedSystem"
  const SuccessStatus: string := "Successful"
  const SuccessRemarks: string := "Trade completed successfully."
  const FailureStatus: string := "Failed"
  const FailureReason: string := "Insufficient funds."
  const FailureRemarks: string := "Trade could not be completed due to insufficient funds."

  predicate IsIntegral(x: real)
  {
    x.Floor as real == x
  }

  /** The body of `CompleteTrade` for a given outcome of the (external)
      success decision: on success the value is `quantity * 50` evaluated
      in 32-bit `int`, fees 2% and tax 5% of it; on failure the amounts keep
      their default of 0. */
  function Settle(quantity: int32, now: DateTime, isTradeSuccessful: bool): (r: TradeCompletionInfo)
    ensures r.completionDate == now && r.completedBy == Some(CompletedBy)
    ensures isTradeSuccessful ==>
      && r.completionStatus == Some(SuccessStatus)
      && r.reasonForFailure == None
      && r.remarks == Some(SuccessRemarks)
      && IsIntegral(r.finalTradeValue)
      && -TwoTo31 as real <= r.finalTradeValue < TwoTo31 as real
      && (r.finalTradeValue.Floor - 50 * quantity as int) % TwoTo32 == 0
      && 50.0 * r.fees == r.finalTradeValue
      && 20.0 * r.tax == r.finalTradeValue
    ensures !isTradeSuccessful ==>
      && r.completionStatus == Some(FailureStatus)
      && r.reasonForFailure == Some(FailureReason)
      && r.remarks == Some(FailureRemarks)
      && r.finalTradeValue == 0.0 && r.fees == 0.0 && r.tax == 0.0
  {
    var info := TradeCompletionInfo(None, now, Some(CompletedBy), None, None, 0.0, 0.0, 0.0);
    if isTradeSuccessful then
      var value := Wrap32(quantity as int * 50) as int as real;
      info.(completionStatus := Some(SuccessStatus),
            finalTradeValue := value,
            fees := value * 0.02,
            tax := value * 0.05,
            remarks := Some(SuccessRemarks))
    else
      info.(completionStatus := Some(FailureStatus),
            reasonForFailure := Some(FailureReason),
            remarks := Some(FailureRemarks))
  }

  /** `TradeManager.CompleteTrade`: the success decision is the constant true,
      so the failure branch is never taken. For a quantity whose value fits
      a 32-bit `int`, value = 50 * quantity, fees = quantity and
      tax = 2.5 * quantity, and for a non-negative one 0 <= fees <= tax <= value. */
  function CompleteTrade(trade: Trade, now: DateTime): (r: TradeCompletionInfo)
    ensures r.completionDate == now && r.completedBy == Some(CompletedBy)
    ensures r.completionStatus == Some(SuccessStatus) && r.reasonForFailure == None
    ensures r.remarks == Some(SuccessRemarks)
    ensures -MaxExactQuantity <= trade.quantity as int <= MaxExactQuantity ==>
      && r.finalTradeValue == 50.0 * trade.quantity as real
      && r.fees == trade.quantity as real
      && r.tax == 2.5 * trade.quantity as real
    ensures 0 <= trade.quantity as int <= MaxExactQuantity ==>
      0.0 <= r.fees <= r.tax <= r.finalTradeValue
  {
    var isTradeSuccessful := true;
    Settle(trade.quantity, now, isTradeSuccessful)
  }

  /** The published example: quantity 100 settles at value 5000, fees 100, tax 250. */
  lemma HundredSharesExample(trade: Trade, now: DateTime)
    requires trade.quantity == 100
    ensures var r := CompleteTrade(trade, now);
      r.finalTradeValue == 5000.0 && r.fees == 100.0 && r.tax == 250.0
  {
  }

  /** Apart from the date, the result depends on the trade only through its quantity. */
  lemma DependsOnlyOnQuantity(a: Trade, b: Trade, now: DateTime)
    requires a.quantity == b.quantity
    ensures CompleteTrade(a, now) == CompleteTrade(b, now)
  {
  }

  /** Past the bound, up to twice it, `quantity * 50` wraps around once in
      32-bit `int` and the trade is valued at a negative amount: at one share
      past the bound, -2147483646. */
  lemma ValueWrapsPastBound(trade: Trade, now: DateTime)
    requires MaxExactQuantity < trade.quantity as int <= 2 * MaxExactQuantity + 1
    ensures var r := CompleteTrade(trade, now);
      && r.finalTradeValue == 50.0 * trade.quantity as real - TwoTo32 as real
      && r.finalTradeValue < 0.0 && r.fees < 0.0 && r.tax < 0.0
      && (trade.quantity as int == MaxExactQuantity + 1 ==> r.finalTradeValue == -2147483646.0)
  {
  }
}
