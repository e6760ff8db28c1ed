/** The activity functions (TradingFunctionDurable/ActivityTrigger/TradeExecutionActivities.cs):
    the stand-in trade execution, and the bounded wait for an entity to
    report its trade Executed. */
module ActivityTrigger {
  import opened Runtime
  import opened EntityModel

  // ---------------------------------------------------------------------------
  // RunExecuteTradeAsync

  const ExecutedPrefix: string := "Trade "
  const ExecutedSuffix: string := " executed."

  /** The trade id a "Trade {id} executed." message reports, if it is one. */
  function ExecutedTradeId(message: string): Option<string>
  {
    if |message| >= |ExecutedPrefix| + |ExecutedSuffix|
       && message[..|ExecutedPrefix|] == ExecutedPrefix
       && message[|message| - |ExecutedSuffix|..] == ExecutedSuffix
    then Some(message[|ExecutedPrefix|..|message| - |ExecutedSuffix|])
    else None
  }

  /** `RunExecuteTradeAsync`: never throws. A trade yields the message
      reporting that trade's id as executed; a null trade faults inside the
      `try`, and the exception's message is returned instead. */
  function RunExecuteTrade(trade: Option<Trade>): (r: string)
    ensures trade.Some? ==> ExecutedTradeId(r) == Some(trade.value.tradeId)
    ensures trade.None? ==> r == NullReferenceMessage && ExecutedTradeId(r) == None
  {
    match trade
    case None => NullReferenceMessage
    case Some(t) =>
      var r := ExecutedPrefix + t.tradeId + ExecutedSuffix;
      assert r[..|ExecutedPrefix|] == ExecutedPrefix;
      assert r[|r| - |ExecutedSuffix|..] == ExecutedSuffix;
      assert r[|ExecutedPrefix|..|r| - |ExecutedSuffix|] == t.tradeId;
      r
  }

  // ---------------------------------------------------------------------------
  // WaitForTradeExecutionCompletionAsync

  const RetryIntervalSeconds: nat := 10
  const MaxRetries: nat := 10

  /** The answer to one `ReadEntityStateAsync<TradingBrokerState>` call. */
  type StateRead = Io<EntityStateResponse<TradingBrokerState>>

  /** What the poller does that the outside can observe: reads and sleeps. */
  datatype PollEvent = ReadState(target: EntityId) | Sleep(seconds: nat)

  /** How the poller ends: it saw the trade Executed, it gave up after the
      last retry (logging a warning, not an error), or a read faulted and
      the exception was logged and rethrown. */
  datatype PollOutcome = ExecutionObserved | GaveUp | Rethrown(message: string)

  /** What one read decides. */
  datatype Verdict = Ready | NotYet | Fault(message: string)

  /** `entityState.EntityExists && entityState.EntityState.ActiveTrade.Status == Executed`,
      where an existing state with no active trade dereferences null. */
  function Judge(read: StateRead): Verdict
  {
    match read
    case Throws(m) => Fault(m)
    case Ok(Missing) => NotYet
    case Ok(Exists(s)) =>
      if s.activeTrade.None? then Fault(NullReferenceMessage)
      else if s.activeTrade.value.status == Executed then Ready
      else NotYet
  }

  /** The first attempt, from `from` on, whose read decides the outcome, or
      `MaxRetries` when none within the budget does. */
  function FirstDecisive(answers: nat -> StateRead, from: nat): (k: nat)
    requires from <= MaxRetries
    ensures from <= k <= MaxRetries
    ensures forall j :: from <= j < k ==> Judge(answers(j)) == NotYet
    ensures k < MaxRetries ==> Judge(answers(k)) != NotYet
    decreases MaxRetries - from
  {
    if from == MaxRetries then MaxRetries
    else if Judge(answers(from)) != NotYet then from
    else FirstDecisive(answers, from + 1)
  }

  /** `n` undecided attempts: a read of `target` followed by a sleep, each time. */
  function Rounds(target: EntityId, n: nat): seq<PollEvent>
  {
    if n == 0 then [] else Rounds(target, n - 1) + [ReadState(target), Sleep(RetryIntervalSeconds)]
  }

  function CountReads(t: seq<PollEvent>): nat
  {
    if t == [] then 0 else (if t[0].ReadState? then 1 else 0) + CountReads(t[1..])
  }

  function CountSleeps(t: seq<PollEvent>): nat
  {
    if t == [] then 0 else (if t[0].Sleep? then 1 else 0) + CountSleeps(t[1..])
  }

  function SleptSeconds(t: seq<PollEvent>): nat
  {
    if t == [] then 0 else (if t[0].Sleep? then t[0].seconds else 0) + SleptSeconds(t[1..])
  }

  lemma {:induction false} CountsAppend(a: seq<PollEvent>, b: seq<PollEvent>)
    ensures CountReads(a + b) == CountReads(a) + CountReads(b)
    ensures CountSleeps(a + b) == CountSleeps(a) + CountSleeps(b)
    ensures SleptSeconds(a + b) == SleptSeconds(a) + SleptSeconds(b)
  {
    if a == [] {
      assert a + b == b;
    } else {
      assert (a + b)[0] == a[0];
      assert (a + b)[1..] == a[1..] + b;
      CountsAppend(a[1..], b);
    }
  }

  /** The counts of a single event. */
  lemma CountsOne(e: PollEvent)
    ensures CountReads([e]) == (if e.ReadState? then 1 else 0)
    ensures CountSleeps([e]) == (if e.Sleep? then 1 else 0)
    ensures SleptSeconds([e]) == (if e.Sleep? then e.seconds else 0)
  {
    assert [e][1..] == [];
  }

  /** `n` rounds hold `n` reads, all of `target`, and `n` sleeps of the retry interval. */
  lemma {:induction false} RoundsCounts(target: EntityId, n: nat)
    ensures CountReads(Rounds(target, n)) == n
    ensures CountSleeps(Rounds(target, n)) == n
    ensures SleptSeconds(Rounds(target, n)) == n * RetryIntervalSeconds
    ensures forall e :: e in Rounds(target, n) ==> e == ReadState(target) || e == Sleep(RetryIntervalSeconds)
  {
    if n > 0 {
      RoundsCounts(target, n - 1);
      var read, sleep := ReadState(target), Sleep(RetryIntervalSeconds);
      CountsOne(read);
      CountsOne(sleep);
      CountsAppend([read], [sleep]);
      assert [read] + [sleep] == [read, sleep];
      CountsAppend(Rounds(target, n - 1), [read, sleep]);
    }
  }

  /** The events of a poll decided at attempt `k`, or of one that used its
      whole budget (`k == MaxRetries`). */
  function PollTrace(target: EntityId, k: nat): seq<PollEvent>
  {
    if k < MaxRetries then Rounds(target, k) + [ReadState(target)] else Rounds(target, MaxRetries)
  }

  /** The outcome of a poll decided at attempt `k`. */
  function PollResult(answers: nat -> StateRead, k: nat): PollOutcome
  {
    if k >= MaxRetries then GaveUp
    else match Judge(answers(k))
      case Ready => ExecutionObserved
      case Fault(m) => Rethrown(m)
      case NotYet => GaveUp
  }

  /** The budget of a poll: between 1 and `MaxRetries` reads, all of `target`;
      a poll decided at attempt `k` made `k + 1` reads and `k` sleeps and
      ended on a read; one that used its whole budget made `MaxRetries` reads
      and as many sleeps and ended on a sleep. In all, at most
      `MaxRetries * RetryIntervalSeconds` seconds asleep. */
  lemma PollTraceBudget(target: EntityId, k: nat)
    requires k <= MaxRetries
    ensures var t := PollTrace(target, k);
      && 1 <= CountReads(t) <= MaxRetries
      && SleptSeconds(t) <= MaxRetries * RetryIntervalSeconds
      && (forall e :: e in t ==> e == ReadState(target) || e == Sleep(RetryIntervalSeconds))
      && (k < MaxRetries ==> CountReads(t) == k + 1 && CountSleeps(t) == k && t[|t| - 1] == ReadState(target))
      && (k == MaxRetries ==> CountReads(t) == MaxRetries && CountSleeps(t) == MaxRetries && t[|t| - 1].Sleep?)
  {
    RoundsCounts(target, k);
    if k < MaxRetries {
      CountsOne(ReadState(target));
      CountsAppend(Rounds(target, k), [ReadState(target)]);
    } else {
      assert Rounds(target, k)[|Rounds(target, k)| - 1] == Sleep(RetryIntervalSeconds);
    }
  }

  /** `FirstDecisive` finds the attempt `k` when every attempt before it is undecided and `k` decides. */
  lemma {:induction false} FirstDecisiveAt(answers: nat -> StateRead, from: nat, k: nat)
    requires from <= k <= MaxRetries
    requires forall j :: from <= j < k ==> Judge(answers(j)) == NotYet
    requires k < MaxRetries ==> Judge(answers(k)) != NotYet
    ensures FirstDecisive(answers, from) == k
    decreases k - from
  {
    if from < k {
      FirstDecisiveAt(answers, from + 1, k);
    }
  }

  /** `WaitForTradeExecutionCompletionAsync`: up to `MaxRetries` reads of the
      broker entity keyed `tradeId`, with a sleep after each read that does
      not see the trade Executed. `answers(i)` is what the host returns to
      the read of attempt `i`. The poll stops at the first attempt whose read
      decides, and gives up only when no read within the budget does. */
  method WaitForTradeExecutionCompletion(tradeId: string, answers: nat -> StateRead)
    returns (outcome: PollOutcome, trace: seq<PollEvent>)
    ensures var k := FirstDecisive(answers, 0);
      trace == PollTrace(BrokerId(tradeId), k) && outcome == PollResult(answers, k)
    ensures outcome == GaveUp <==> forall j :: 0 <= j < MaxRetries ==> Judge(answers(j)) == NotYet
    ensures outcome == ExecutionObserved <==>
      exists k :: 0 <= k < MaxRetries && Judge(answers(k)) == Ready && forall j :: 0 <= j < k ==> Judge(answers(j)) == NotYet
  {
    var target := BrokerId(tradeId);
    trace := [];
    var retryCount := 0;
    while retryCount < MaxRetries
      invariant 0 <= retryCount <= MaxRetries
      invariant trace == Rounds(target, retryCount)
      invariant forall j :: 0 <= j < retryCount ==> Judge(answers(j)) == NotYet
    {
      var entityState := answers(retryCount);
      trace := trace + [ReadState(target)];
      match entityState {
        case Throws(message) =>
          outcome := Rethrown(message);
          FirstDecisiveAt(answers, 0, retryCount);
          return;
        case Ok(response) =>
          if response.Exists? {
            if response.state.activeTrade.None? {
              outcome := Rethrown(NullReferenceMessage);
              FirstDecisiveAt(answers, 0, retryCount);
              return;
            }
            if response.state.activeTrade.value.status == Executed {
              outcome := ExecutionObserved;
              FirstDecisiveAt(answers, 0, retryCount);
              return;
            }
          }
      }
      trace := trace + [Sleep(RetryIntervalSeconds)];
      retryCount := retryCount + 1;
    }
    outcome := GaveUp;
    FirstDecisiveAt(answers, 0, retryCount);
  }
}
