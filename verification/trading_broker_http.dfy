/** The HTTP front door (TradingFunctionDurable/HttpStart/TradingBrokerHttpFunctions.cs),
    reduced to its decisions: from the route values and the host's answers
    to the calls each handler awaits, to a status code, a response body and
    at most one signal to an entity. */
module HttpStart {
  import opened Runtime
  import opened EntityModel
  import EntityTrigger
  import Processor

  const OK: int := 200
  const BadRequest: int := 400
  const NotFound: int := 404
  const InternalServerError: int := 500

  /** A response body: text, or the JSON of a broker state or of completion info. */
  datatype Content =
    | Text(text: string)
    | BrokerStateJson(state: TradingBrokerState)
    | CompletionJson(info: TradeCompletionInfo)

  /** What a handler returns, and the signal it sent on the way, if any. */
  datatype HttpResult = HttpResult(status: int, content: Content, signal: Option<Signal>)

  function Respond(status: int, text: string): HttpResult
  {
    HttpResult(status, Text(text), None)
  }

  /** The host reads an entity's state by address. */
  type StateReader<T> = EntityId -> Io<EntityStateResponse<T>>

  // ---------------------------------------------------------------------------
  // POST TradingBroker/{entityKey}/{operationType}

  /** The answers to the POST handler's awaited calls, in order: the body read
      as TradeInfo, the body read as text (completetrade only), the signal,
      and the follow-up existence check. */
  datatype PostIo = PostIo(tradeInfo: Io<Option<TradeInfo>>, rawBody: Io<string>, send: Io<()>, check: Io<bool>)

  function InvalidOperation(operationType: string): string
  {
    "Invalid operation type: " + operationType + "."
  }

  /** Send `sig`, then read the entity back; a missing entity is only logged. */
  function SignalAndCheck(operationType: string, sig: Signal, io: PostIo): HttpResult
  {
    match io.send
    case Throws(m) => Respond(InternalServerError, m)
    case Ok(_) =>
      match io.check
      case Throws(m) => HttpResult(InternalServerError, Text(m), Some(sig))
      case Ok(_) => HttpResult(OK, Text(operationType + " operation completed."), Some(sig))
  }

  /** The payload the POST forwards from the body read as TradeInfo: null when the body held none. */
  function TradeInfoPayload(tradeInfo: Option<TradeInfo>): OperationInput
  {
    if tradeInfo.Some? then TradeInfoInput(tradeInfo.value) else NoInput
  }

  /** The POST reached its signal: the body was read as TradeInfo, the
      operation type is one of the three, and for completetrade the body was
      also read as text. */
  predicate ReachesSignal(operationType: string, io: PostIo)
  {
    && io.tradeInfo.Ok? && EntityTrigger.IsEntityOperation(ToLower(operationType))
    && (ToLower(operationType) == EntityTrigger.CompleteTradeOp ==> io.rawBody.Ok?)
  }

  /** `RunTradingBrokerHttpStart`: forwards one of the three operations to the
      broker entity keyed `entityKey`, or rejects the operation type. Every
      exception on the way answers 500 with its message. */
  function RunTradingBrokerHttpStart(entityKey: string, operationType: string, io: PostIo): (r: HttpResult)
    ensures r.status == OK || r.status == BadRequest || r.status == InternalServerError
    ensures io.tradeInfo.Throws? ==> r == Respond(InternalServerError, io.tradeInfo.message)
    ensures r.status == BadRequest <==>
      io.tradeInfo.Ok? && !EntityTrigger.IsEntityOperation(ToLower(operationType))
    ensures r.status == BadRequest ==> r == Respond(BadRequest, InvalidOperation(operationType))
    ensures io.tradeInfo.Ok? && ToLower(operationType) == EntityTrigger.CompleteTradeOp && io.rawBody.Throws? ==>
      r == Respond(InternalServerError, io.rawBody.message)
    ensures ReachesSignal(operationType, io) && io.send.Throws? ==>
      r == Respond(InternalServerError, io.send.message)
    ensures ReachesSignal(operationType, io) && io.send.Ok? && io.check.Throws? ==>
      r.status == InternalServerError && r.content == Text(io.check.message) && r.signal.Some?
    ensures r.status == OK <==> ReachesSignal(operationType, io) && io.send.Ok? && io.check.Ok?
    ensures r.status == OK ==> r.content == Text(operationType + " operation completed.")
    ensures r.status == OK ==> r.signal.Some?
    ensures r.signal.Some? <==> ReachesSignal(operationType, io) && io.send.Ok?
    ensures r.status == InternalServerError && r.signal.Some? ==> io.check.Throws?
    ensures r.signal.Some? ==>
      && r.signal.value.target == BrokerId(entityKey)
      && ToLower(r.signal.value.operation) == ToLower(operationType)
    ensures r.signal.Some? && ToLower(operationType) == EntityTrigger.InitiateTradeOp ==>
      r.signal.value.operation == "initiateTrade" && r.signal.value.input == TradeInfoPayload(io.tradeInfo.value)
    ensures r.signal.Some? && ToLower(operationType) == EntityTrigger.ExecuteTradeOp ==>
      r.signal.value.operation == "executeTrade" && r.signal.value.input == TradeInfoPayload(io.tradeInfo.value)
    ensures r.signal.Some? && ToLower(operationType) == EntityTrigger.CompleteTradeOp ==>
      r.signal.value.operation == "completetrade" && r.signal.value.input == RemarksInput(io.rawBody.value)
  {
    match io.tradeInfo
    case Throws(m) => Respond(InternalServerError, m)
    case Ok(tradeInfo) =>
      var entityId := BrokerId(entityKey);
      var payload := TradeInfoPayload(tradeInfo);
      var op := ToLower(operationType);
      if op == EntityTrigger.InitiateTradeOp then
        SignalAndCheck(operationType, Signal(entityId, "initiateTrade", payload), io)
      else if op == EntityTrigger.ExecuteTradeOp then
        SignalAndCheck(operationType, Signal(entityId, "executeTrade", payload), io)
      else if op == EntityTrigger.CompleteTradeOp then
        match io.rawBody
        case Throws(m) => Respond(InternalServerError, m)
        case Ok(remarks) => SignalAndCheck(operationType, Signal(entityId, "completetrade", RemarksInput(remarks)), io)
      else
        Respond(BadRequest, InvalidOperation(operationType))
  }

  /** Whether the follow-up read finds the entity makes no difference to the response. */
  lemma PostIgnoresExistenceCheck(entityKey: string, operationType: string, io: PostIo, found: bool)
    ensures RunTradingBrokerHttpStart(entityKey, operationType, io.(check := Ok(found)))
         == RunTradingBrokerHttpStart(entityKey, operationType, io.(check := Ok(true)))
  {
  }

  /** The signal a successful POST sends, delivered to the broker entity,
      performs the operation the request named: initiatetrade with a body
      opens a Pending trade of that TradeInfo, executetrade marks an active
      trade Executed, completetrade records the body as remarks. */
  lemma PostSignalTakesEffect(entityKey: string, operationType: string, io: PostIo, s: TradingBrokerState)
    requires RunTradingBrokerHttpStart(entityKey, operationType, io).status == OK
    ensures var sig := RunTradingBrokerHttpStart(entityKey, operationType, io).signal.value;
      var step := EntityTrigger.Transition(sig.target, s, sig.operation, sig.input);
      var op := ToLower(operationType);
      && (op == EntityTrigger.InitiateTradeOp && io.tradeInfo.value.Some? ==>
            var info := io.tradeInfo.value.value;
            step.state.activeTrade == Some(Trade(entityKey, info.stockSymbol, info.quantity, info.action, Pending, false)))
      && (op == EntityTrigger.InitiateTradeOp && io.tradeInfo.value.None? ==>
            step.result == EntityTrigger.Rethrown(EntityTrigger.NullReference))
      && (op == EntityTrigger.ExecuteTradeOp && s.activeTrade.Some? ==>
            step.state == s.(activeTrade := Some(s.activeTrade.value.(status := Executed))))
      && (op == EntityTrigger.CompleteTradeOp ==>
            step.state == s.(isDeleted := true, remarks := Some(io.rawBody.value)))
  {
    var sig := RunTradingBrokerHttpStart(entityKey, operationType, io).signal.value;
    EntityTrigger.NamesMatchIgnoringCase(sig.target, s, sig.operation, ToLower(operationType), sig.input);
    ToLowerIdempotent(operationType);
  }

  // ---------------------------------------------------------------------------
  // GET TradingBroker/{entityKey}/{operationType}

  /** `RunGetBrokerState`: reports the broker state when its trade is at the
      stage the operation type names. */
  function RunGetBrokerState(entityKey: string, operationType: string, read: StateReader<TradingBrokerState>): (r: HttpResult)
    ensures r.signal.None?
    ensures r.status == OK || r.status == BadRequest || r.status == NotFound || r.status == InternalServerError
    ensures read(BrokerId(entityKey)).Throws? ==> r == Respond(InternalServerError, read(BrokerId(entityKey)).message)
    ensures read(BrokerId(entityKey)) == Ok(Missing) <==> r.status == NotFound
    ensures read(BrokerId(entityKey)) == Ok(Missing) ==> r == Respond(NotFound, "Trading broker entity not found.")
    ensures r.status == OK <==>
      && read(BrokerId(entityKey)).Ok? && read(BrokerId(entityKey)).value.Exists?
      && var s := read(BrokerId(entityKey)).value.state;
      && s.activeTrade.Some?
      && ((ToLower(operationType) == EntityTrigger.InitiateTradeOp && s.activeTrade.value.status == Pending)
          || (ToLower(operationType) == EntityTrigger.ExecuteTradeOp && s.activeTrade.value.status == Executed))
    ensures r.status == OK ==> r.content == BrokerStateJson(read(BrokerId(entityKey)).value.state)
    ensures read(BrokerId(entityKey)).Ok? && read(BrokerId(entityKey)).value.Exists? ==>
      var s := read(BrokerId(entityKey)).value.state;
      var op := ToLower(operationType);
      && (s.activeTrade.None? && (op == EntityTrigger.InitiateTradeOp || op == EntityTrigger.ExecuteTradeOp) ==>
            r == Respond(InternalServerError, NullReferenceMessage))
      && (op == EntityTrigger.InitiateTradeOp && s.activeTrade.Some? && s.activeTrade.value.status != Pending ==>
            r == Respond(BadRequest, "Trade has already been processed or executed."))
      && (op == EntityTrigger.ExecuteTradeOp && s.activeTrade.Some? && s.activeTrade.value.status != Executed ==>
            r == Respond(BadRequest, "Trade has not been executed yet."))
    ensures read(BrokerId(entityKey)).Ok? && read(BrokerId(entityKey)).value.Exists?
            && !(ToLower(operationType) == EntityTrigger.InitiateTradeOp || ToLower(operationType) == EntityTrigger.ExecuteTradeOp)
            ==> r == Respond(BadRequest, InvalidOperation(operationType))
  {
    var entityId := BrokerId(entityKey);
    match read(entityId)
    case Throws(m) => Respond(InternalServerError, m)
    case Ok(Missing) => Respond(NotFound, "Trading broker entity not found.")
    case Ok(Exists(brokerState)) =>
      var op := ToLower(operationType);
      if op == EntityTrigger.InitiateTradeOp then
        if brokerState.activeTrade.None? then Respond(InternalServerError, NullReferenceMessage)
        else if brokerState.activeTrade.value.status != Pending then
          Respond(BadRequest, "Trade has already been processed or executed.")
        else HttpResult(OK, BrokerStateJson(brokerState), None)
      else if op == EntityTrigger.ExecuteTradeOp then
        if brokerState.activeTrade.None? then Respond(InternalServerError, NullReferenceMessage)
        else if brokerState.activeTrade.value.status != Executed then
          Respond(BadRequest, "Trade has not been executed yet.")
        else HttpResult(OK, BrokerStateJson(brokerState), None)
      else
        Respond(BadRequest, InvalidOperation(operationType))
  }

  /** GET against the entity's own state: after an initiation it reports the
      trade for initiatetrade; after an execution, for executetrade; after an
      operation that faulted (the state reset to empty) both checks fail with
      the null dereference. */
  lemma GetFollowsEntity(entityKey: string, s: TradingBrokerState, opName: string, input: OperationInput, read: StateReader<TradingBrokerState>)
    requires var step := EntityTrigger.Transition(BrokerId(entityKey), s, opName, input);
      read(BrokerId(entityKey)) == Ok(Exists(step.state))
    ensures var step := EntityTrigger.Transition(BrokerId(entityKey), s, opName, input);
      && (ToLower(opName) == EntityTrigger.InitiateTradeOp && step.result.Done? ==>
            RunGetBrokerState(entityKey, "initiatetrade", read) == HttpResult(OK, BrokerStateJson(step.state), None))
      && (ToLower(opName) == EntityTrigger.ExecuteTradeOp && step.result.Done? ==>
            RunGetBrokerState(entityKey, "executetrade", read) == HttpResult(OK, BrokerStateJson(step.state), None))
      && (step.result.Rethrown? ==>
            RunGetBrokerState(entityKey, "initiatetrade", read) == Respond(InternalServerError, NullReferenceMessage)
            && RunGetBrokerState(entityKey, "executetrade", read) == Respond(InternalServerError, NullReferenceMessage))
  {
  }

  // ---------------------------------------------------------------------------
  // POST TradingBroker/{entityKey}/complete

  /** `SignalTradeCompletion`: sends the request body as remarks in a
      `completetrade` signal to the broker entity keyed `entityKey`. */
  function SignalTradeCompletion(entityKey: string, rawBody: Io<string>, send: Io<()>): (r: HttpResult)
    ensures r.status == OK || r.status == InternalServerError
    ensures r.status == OK <==> rawBody.Ok? && send.Ok?
    ensures r.status == OK ==>
      && r.content == Text("Trade marked as completed.")
      && r.signal.Some? && r.signal.value.target == BrokerId(entityKey)
      && ToLower(r.signal.value.operation) == EntityTrigger.CompleteTradeOp
      && r.signal.value.operation == "completetrade"
      && r.signal.value.input == RemarksInput(rawBody.value)
    ensures r.status == InternalServerError ==>
      r.signal.None? && r.content == Text(if rawBody.Throws? then rawBody.message else send.message)
  {
    match rawBody
    case Throws(m) => Respond(InternalServerError, m)
    case Ok(remarks) =>
      var entityId := BrokerId(entityKey);
      match send
      case Throws(m) => Respond(InternalServerError, m)
      case Ok(_) => HttpResult(OK, Text("Trade marked as completed."), Some(Signal(entityId, "completetrade", RemarksInput(remarks))))
  }

  /** The completion signal, delivered, soft-deletes the state with the body
      as remarks and keeps the trade. */
  lemma CompletionSignalTakesEffect(entityKey: string, rawBody: string, s: TradingBrokerState)
    ensures var sig := SignalTradeCompletion(entityKey, Ok(rawBody), Ok(())).signal.value;
      EntityTrigger.Transition(sig.target, s, sig.operation, sig.input).state
        == TradingBrokerState(s.activeTrade, true, Some(rawBody))
  {
  }

  // ---------------------------------------------------------------------------
  // POST FinalizeTrade/{tradeId}

  /** The entity name `FinalizeTradeFunction` addresses: the class's name,
      not the registered entity function's. */
  const FinalizeEntityName: string := "TradingBrokerEntity"

  /** `FinalizeTradeFunction`: reads a `Trade` from the entity it addresses
      and returns its settlement. */
  function FinalizeTradeFunction(tradeId: string, read: StateReader<Trade>, now: DateTime): (r: HttpResult)
    ensures r.signal.None?
    ensures r.status == OK || r.status == NotFound || r.status == InternalServerError
    ensures var answer := read(EntityId(FinalizeEntityName, tradeId));
      && (answer.Throws? ==> r == Respond(InternalServerError, answer.message))
      && (answer == Ok(Missing) ==> r == Respond(NotFound, "Trade with ID " + tradeId + " not found."))
      && (answer.Ok? && answer.value.Exists? ==>
            r == HttpResult(OK, CompletionJson(Processor.CompleteTrade(answer.value.state, now)), None))
  {
    var entityId := EntityId(FinalizeEntityName, tradeId);
    match read(entityId)
    case Throws(m) => Respond(InternalServerError, m)
    case Ok(Missing) => Respond(NotFound, "Trade with ID " + tradeId + " not found.")
    case Ok(Exists(trade)) => HttpResult(OK, CompletionJson(Processor.CompleteTrade(trade, now)), None)
  }

  /** When the host holds state only under the broker entity's registered
      name (the only name any signal in this system addresses), finalization
      finds nothing, whatever the trade id. */
  lemma FinalizeMissesBrokerEntities(tradeId: string, read: StateReader<Trade>, now: DateTime)
    requires forall id: EntityId :: id.name != BrokerEntityName ==> read(id) == Ok(Missing)
    ensures FinalizeTradeFunction(tradeId, read, now).status == NotFound
  {
    assert |FinalizeEntityName| != |BrokerEntityName|;
  }
}
