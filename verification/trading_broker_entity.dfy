/** The trading-broker entity (TradingFunctionDurable/EntityTrigger/TradingBrokerEntity.cs):
    one durable `TradingBrokerState` per key, changed by named operations
    applied one at a time. */
module EntityTrigger {
  import opened Runtime
  import opened EntityModel

  /** The three operation names the entity recognises, after lower-casing. */
  const InitiateTradeOp: string := "initiatetrade"
  const ExecuteTradeOp: string := "executetrade"
  const CompleteTradeOp: string := "completetrade"

  /** The operation name of the signal sent on initiation (the orchestrator function's name). */
  const OrchestratorOperation: string := "RunTradeExecutionOrchestratorAsync"

  predicate IsEntityOperation(op: string)
  {
    op == InitiateTradeOp || op == ExecuteTradeOp || op == CompleteTradeOp
  }

  /** What `context.GetInput<T>()` yields: the payload read as a T, null, or
      an exception because the payload cannot be read as a T. */
  datatype Read<+T> = Value(value: T) | Null | Unreadable

  /** `GetInput<TradeInfo>()`: a Trade payload carries every TradeInfo field;
      a bare string is not an object. */
  function ReadTradeInfo(input: OperationInput): Read<TradeInfo>
  {
    match input
    case NoInput => Null
    case TradeInfoInput(info) => Value(info)
    case TradeInput(t) => Value(TradeInfo(t.stockSymbol, t.quantity, t.action))
    case RemarksInput(_) => Unreadable
  }

  /** Whether `GetInput<Trade>()` returns (a TradeInfo payload reads as a Trade
      with its other fields defaulted; only a bare string cannot be read). */
  predicate ReadableAsTrade(input: OperationInput)
  {
    !input.RemarksInput?
  }

  /** `GetInput<string>()`: an object payload is not a string. */
  function ReadRemarks(input: OperationInput): Read<string>
  {
    match input
    case NoInput => Null
    case RemarksInput(r) => Value(r)
    case _ => Unreadable
  }

  /** The exceptions an operation can raise inside the entity's `try`. */
  datatype Fault = NullReference | UnreadableInput

  /** How an operation ends: normally, or with the exception rethrown to the caller. */
  datatype OperationResult = Done | Rethrown(fault: Fault)

  /** The effect of one operation: the state written, the signals sent, how it ended. */
  datatype Step = Step(state: TradingBrokerState, emitted: seq<Signal>, result: OperationResult)

  /** The `catch` block: the state becomes a fresh empty state and the exception is rethrown. */
  function Reset(f: Fault): Step
  {
    Step(EmptyState, [], Rethrown(f))
  }

  /** What every state reachable from the empty state satisfies: a trade in it
      belongs to this key, was never soft-deleted and is Pending or Executed. */
  predicate StateInvariant(key: string, s: TradingBrokerState)
  {
    s.activeTrade.Some? ==>
      var t := s.activeTrade.value;
      t.tradeId == key && !t.isSoftDeleted && (t.status == Pending || t.status == Executed)
  }

  predicate IsPending(s: TradingBrokerState)
  {
    s.activeTrade.Some? && s.activeTrade.value.status == Pending
  }

  /** One application of `RunTradingBrokerEntity` to entity `self` in state `s`. */
  function Transition(self: EntityId, s: TradingBrokerState, opName: string, input: OperationInput): (r: Step)
    ensures |r.emitted| <= 1
    ensures r.result.Rethrown? ==> r.state == EmptyState && r.emitted == []
    ensures !IsEntityOperation(ToLower(opName)) ==> r == Step(s, [], Done)
    ensures r.emitted != [] ==>
      && ToLower(opName) == InitiateTradeOp
      && r.state.activeTrade.Some?
      && r.emitted == [Signal(self, OrchestratorOperation, TradeInput(r.state.activeTrade.value))]
    ensures StateInvariant(self.key, s) ==> StateInvariant(self.key, r.state)
    ensures IsPending(r.state) && !IsPending(s) ==> ToLower(opName) == InitiateTradeOp && r.result.Done?
  {
    var op := ToLower(opName);
    if op == InitiateTradeOp then
      match ReadTradeInfo(input)
      case Value(tradeInfo) =>
        var trade := Trade(self.key, tradeInfo.stockSymbol, tradeInfo.quantity, tradeInfo.action, Pending, false);
        Step(TradingBrokerState(Some(trade), false, None), [Signal(self, OrchestratorOperation, TradeInput(trade))], Done)
      case Null => Reset(NullReference)
      case Unreadable => Reset(UnreadableInput)
    else if op == ExecuteTradeOp then
      if !ReadableAsTrade(input) then Reset(UnreadableInput)
      else if s.activeTrade.None? then Reset(NullReference)
      else Step(s.(activeTrade := Some(s.activeTrade.value.(status := Executed))), [], Done)
    else if op == CompleteTradeOp then
      match ReadRemarks(input)
      case Unreadable => Reset(UnreadableInput)
      case Null => Step(s.(isDeleted := true, remarks := None), [], Done)
      case Value(remarks) => Step(s.(isDeleted := true, remarks := Some(remarks)), [], Done)
    else
      Step(s, [], Done)
  }

  /** The entity instance for one key: its durable state and the signals it has sent. */
  class TradingBrokerEntity {
    const id: EntityId
    var state: TradingBrokerState
    var outbox: seq<Signal>

    /** An entity never written before: the host hands out the empty state. */
    constructor (key: string)
      ensures id == BrokerId(key)
      ensures state == EmptyState && outbox == []
    {
      id := BrokerId(key);
      state := EmptyState;
      outbox := [];
    }

    /** Handles one operation: dispatch on the lower-cased name, update the
        state in place, and on any exception reset the state and rethrow. */
    method Apply(opName: string, input: OperationInput) returns (result: OperationResult)
      modifies this
      ensures var step := Transition(id, old(state), opName, input);
        && state == step.state
        && outbox == old(outbox) + step.emitted
        && result == step.result
    {
      var fault: Option<Fault> := None;
      var brokerState := state;
      var op := ToLower(opName);
      if op == InitiateTradeOp {
        match ReadTradeInfo(input)
        case Value(tradeInfo) =>
          var trade := Trade(id.key, tradeInfo.stockSymbol, tradeInfo.quantity, tradeInfo.action, Pending, false);
          outbox := outbox + [Signal(id, OrchestratorOperation, TradeInput(trade))];
          state := TradingBrokerState(Some(trade), false, None);
        case Null =>
          fault := Some(NullReference);
        case Unreadable =>
          fault := Some(UnreadableInput);
      } else if op == ExecuteTradeOp {
        if !ReadableAsTrade(input) {
          fault := Some(UnreadableInput);
        } else if brokerState.activeTrade.None? {
          fault := Some(NullReference);
        } else {
          brokerState := brokerState.(activeTrade := Some(brokerState.activeTrade.value.(status := Executed)));
          state := brokerState;
        }
      } else if op == CompleteTradeOp {
        var remarks := ReadRemarks(input);
        if remarks.Unreadable? {
          fault := Some(UnreadableInput);
        } else {
          brokerState := brokerState.(isDeleted := true);
          brokerState := brokerState.(remarks := if remarks.Value? then Some(remarks.value) else None);
          state := brokerState;
        }
      }
      if fault.Some? {
        state := EmptyState;
        result := Rethrown(fault.value);
      } else {
        result := Done;
      }
    }
  }

  // ---------------------------------------------------------------------------
  // Properties of single operations

  /** `initiatetrade` replaces the whole state by a fresh Pending trade keyed
      by the entity, whatever the previous trade, flag and remarks were, and
      sends exactly one signal, to the entity itself, carrying that trade. */
  lemma InitiateReplacesState(self: EntityId, s: TradingBrokerState, opName: string, info: TradeInfo)
    requires ToLower(opName) == InitiateTradeOp
    ensures var trade := Trade(self.key, info.stockSymbol, info.quantity, info.action, Pending, false);
      Transition(self, s, opName, TradeInfoInput(info))
        == Step(TradingBrokerState(Some(trade), false, None), [Signal(self, OrchestratorOperation, TradeInput(trade))], Done)
  {
  }

  /** Two initiations in a row: the later payload wins. */
  lemma InitiateLastWriterWins(self: EntityId, s: TradingBrokerState, opName: string, first: TradeInfo, second: TradeInfo)
    requires ToLower(opName) == InitiateTradeOp
    ensures var s1 := Transition(self, s, opName, TradeInfoInput(first)).state;
      Transition(self, s1, opName, TradeInfoInput(second)).state
        == Transition(self, EmptyState, opName, TradeInfoInput(second)).state
  {
  }

  /** `initiatetrade` without a payload dereferences null: the state is reset
      and nothing is sent. */
  lemma InitiateWithoutPayloadFaults(self: EntityId, s: TradingBrokerState, opName: string)
    requires ToLower(opName) == InitiateTradeOp
    ensures Transition(self, s, opName, NoInput) == Step(EmptyState, [], Rethrown(NullReference))
  {
  }

  /** `executetrade` on an active trade marks it Executed and touches nothing
      else; the payload's fields play no part. */
  lemma ExecuteMarksExecuted(self: EntityId, s: TradingBrokerState, opName: string, input: OperationInput)
    requires ToLower(opName) == ExecuteTradeOp && ReadableAsTrade(input)
    requires s.activeTrade.Some?
    ensures var t := s.activeTrade.value;
      Transition(self, s, opName, input)
        == Step(TradingBrokerState(Some(t.(status := Executed)), s.isDeleted, s.remarks), [], Done)
  {
  }

  /** `executetrade` applied twice is `executetrade` applied once. */
  lemma ExecuteIdempotent(self: EntityId, s: TradingBrokerState, opName: string, input: OperationInput)
    requires ToLower(opName) == ExecuteTradeOp && ReadableAsTrade(input)
    requires s.activeTrade.Some?
    ensures var once := Transition(self, s, opName, input);
      Transition(self, once.state, opName, input) == once
  {
  }

  /** `executetrade` with no active trade dereferences null: the state becomes
      the empty state and the exception reaches the caller. */
  lemma ExecuteWithoutTradeResets(self: EntityId, s: TradingBrokerState, opName: string, input: OperationInput)
    requires ToLower(opName) == ExecuteTradeOp && ReadableAsTrade(input)
    requires s.activeTrade.None?
    ensures Transition(self, s, opName, input) == Step(EmptyState, [], Rethrown(NullReference))
  {
  }

  /** `completetrade` sets the deleted flag and the remarks and leaves the trade as it was. */
  lemma CompleteSetsRemarks(self: EntityId, s: TradingBrokerState, opName: string, remarks: string)
    requires ToLower(opName) == CompleteTradeOp
    ensures Transition(self, s, opName, RemarksInput(remarks))
      == Step(TradingBrokerState(s.activeTrade, true, Some(remarks)), [], Done)
  {
  }

  /** `completetrade` repeated with the same remarks changes nothing more. */
  lemma CompleteIdempotent(self: EntityId, s: TradingBrokerState, opName: string, input: OperationInput)
    requires ToLower(opName) == CompleteTradeOp
    ensures var once := Transition(self, s, opName, input);
      Transition(self, once.state, opName, input).state == once.state
  {
  }

  /** Operation names are matched without regard to case. */
  lemma NamesMatchIgnoringCase(self: EntityId, s: TradingBrokerState, a: string, b: string, input: OperationInput)
    requires ToLower(a) == ToLower(b)
    ensures Transition(self, s, a, input) == Transition(self, s, b, input)
  {
  }

  /** The signal sent on initiation names the orchestrator, not an entity
      operation: delivered back to the entity it matches no case and changes nothing. */
  lemma OrchestratorSignalIgnored(self: EntityId, s: TradingBrokerState, opName: string, input: OperationInput, t: TradingBrokerState)
    requires Transition(self, s, opName, input).emitted != []
    ensures var sig := Transition(self, s, opName, input).emitted[0];
      sig.target == self && Transition(self, t, sig.operation, sig.input) == Step(t, [], Done)
  {
    assert |ToLower(OrchestratorOperation)| == 34;
  }

  // ---------------------------------------------------------------------------
  // Sequences of operations, applied one at a time in arrival order

  datatype Operation = Operation(name: string, input: OperationInput)

  /** The state and all signals after applying `ops` in order, starting from `s`. */
  function Run(self: EntityId, s: TradingBrokerState, ops: seq<Operation>): (r: Step)
    decreases |ops|
  {
    if ops == [] then Step(s, [], Done)
    else
      var first := Transition(self, s, ops[0].name, ops[0].input);
      var rest := Run(self, first.state, ops[1..]);
      Step(rest.state, first.emitted + rest.emitted, rest.result)
  }

  /** An operation that opens a trade: `initiatetrade` with a readable TradeInfo. */
  predicate OpensTrade(op: Operation)
  {
    ToLower(op.name) == InitiateTradeOp && ReadTradeInfo(op.input).Value?
  }

  function CountOpening(ops: seq<Operation>): nat
  {
    if ops == [] then 0 else (if OpensTrade(ops[0]) then 1 else 0) + CountOpening(ops[1..])
  }

  /** From any state satisfying the invariant (the empty state among them),
      no sequence of operations leads to a trade that is Completed,
      soft-deleted or keyed by another id. */
  lemma {:induction false} RunKeepsInvariant(self: EntityId, s: TradingBrokerState, ops: seq<Operation>)
    requires StateInvariant(self.key, s)
    ensures StateInvariant(self.key, Run(self, s, ops).state)
    decreases |ops|
  {
    if ops != [] {
      var first := Transition(self, s, ops[0].name, ops[0].input);
      RunKeepsInvariant(self, first.state, ops[1..]);
    }
  }

  /** Exactly one orchestrator signal is sent per trade-opening operation, and
      every signal goes to the entity itself. */
  lemma {:induction false} RunSignalsPerInitiation(self: EntityId, s: TradingBrokerState, ops: seq<Operation>)
    ensures |Run(self, s, ops).emitted| == CountOpening(ops)
    ensures forall sig :: sig in Run(self, s, ops).emitted ==> sig.target == self && sig.operation == OrchestratorOperation
    decreases |ops|
  {
    if ops != [] {
      var first := Transition(self, s, ops[0].name, ops[0].input);
      RunSignalsPerInitiation(self, first.state, ops[1..]);
    }
  }

  /** The client scenario, run against an entity never written before:
      initiate (AAPL, 100, Buy) and read Pending, then execute and read
      Executed with the other fields as initiated; the one signal sent is
      the entity's own orchestrator signal. */
  method TesterScenario(key: string) returns (afterInitiate: TradingBrokerState, afterExecute: TradingBrokerState, sent: seq<Signal>)
    ensures afterInitiate.activeTrade == Some(Trade(key, "AAPL", 100, Buy, Pending, false))
    ensures afterExecute.activeTrade == Some(Trade(key, "AAPL", 100, Buy, Executed, false))
    ensures sent == [Signal(BrokerId(key), OrchestratorOperation, TradeInput(afterInitiate.activeTrade.value))]
  {
    var entity := new TradingBrokerEntity(key);
    var r1 := entity.Apply("InitiateTrade", TradeInfoInput(TradeInfo("AAPL", 100, Buy)));
    afterInitiate := entity.state;
    var r2 := entity.Apply("ExecuteTrade", TradeInput(Trade(key, "AAPL", 100, Buy, Pending, false)));
    afterExecute := entity.state;
    sent := entity.outbox;
  }
}
