/** Inputs and outputs of the option replay. Prices are exact reals, instants integer
    microseconds. `Valid` predicates are the checks made when a value is constructed. */
module BacktestModels {
  import opened Outcomes

  datatype ExitReason = Stop | Target | Expiry | Time | EndOfData

  datatype Event = SignalQueued | Entry | ExitFill | Exit | Skipped | Unfilled

  datatype OptionBar = OptionBar(
    instrumentId: string, timestamp: int, open: real, high: real, low: real, close: real,
    bid: real, ask: real, bidQuantity: Option<int>, askQuantity: Option<int>)
  {
    predicate Valid() {
      && open > 0.0 && high > 0.0 && low > 0.0 && close > 0.0 && bid > 0.0 && ask > 0.0
      && high >= open && high >= close && high >= low
      && low <= open && low <= close
      && bid <= ask
      && (bidQuantity.Some? ==> bidQuantity.value >= 0)
      && (askQuantity.Some? ==> askQuantity.value >= 0)
    }
  }

  /** The labels by which a report is broken down. */
  datatype Dimensions = Dimensions(
    scoreBand: string, market: string, expiryBucket: string, moneyness: string,
    timeBucket: string, volatilityBucket: string, regime: string)

  datatype Signal = Signal(
    signalId: string, instrumentId: string, generatedAt: int, lots: int, lotSize: int,
    stopPrice: real, targetPrice: real, contractExpiry: int,
    maxHolding: Option<int>, validUntil: Option<int>, dimensions: Dimensions)
  {
    predicate Valid() {
      && generatedAt < contractExpiry
      && (validUntil.Some? ==> generatedAt < validUntil.value)
      && (maxHolding.Some? ==> maxHolding.value > 0)
      && lots > 0 && lotSize > 0
      && 0.0 <= stopPrice < targetPrice
    }

    function RequestedQuantity(): int {
      lots * lotSize
    }
  }

  datatype ReplayFrame = ReplayFrame(timestamp: int, bars: seq<OptionBar>, signals: seq<Signal>) {
    ghost predicate Valid() {
      && (forall i :: 0 <= i < |bars| ==> bars[i].Valid() && bars[i].timestamp == timestamp)
      && (forall i, j :: 0 <= i < j < |bars| ==> bars[i].instrumentId != bars[j].instrumentId)
      && (forall i :: 0 <= i < |signals| ==> signals[i].Valid() && signals[i].generatedAt == timestamp)
      && (forall i, j :: 0 <= i < j < |signals| ==> signals[i].signalId != signals[j].signalId)
    }
  }

  datatype Config = Config(
    initialCapital: real,
    entryBps: real, exitBps: real, fixedEntryPerUnit: real, fixedExitPerUnit: real,
    brokeragePerOrder: real, entryTaxRate: real, exitTaxRate: real,
    transactionFeeRate: real, regulatoryFeeRate: real, gstRate: real,
    partialFills: bool, maximumParticipationRate: real)
  {
    predicate Valid() {
      && initialCapital > 0.0
      && entryBps >= 0.0 && exitBps >= 0.0 && fixedEntryPerUnit >= 0.0 && fixedExitPerUnit >= 0.0
      && brokeragePerOrder >= 0.0
      && 0.0 <= entryTaxRate <= 1.0 && 0.0 <= exitTaxRate <= 1.0
      && 0.0 <= transactionFeeRate <= 1.0 && 0.0 <= regulatoryFeeRate <= 1.0 && 0.0 <= gstRate <= 1.0
      && 0.0 < maximumParticipationRate <= 1.0
    }
  }

  datatype CostBreakdown = CostBreakdown(
    brokerage: real, taxes: real, transactionFees: real, regulatoryFees: real, gst: real)
  {
    function Total(): real {
      brokerage + taxes + transactionFees + regulatoryFees + gst
    }

    function Plus(other: CostBreakdown): CostBreakdown {
      CostBreakdown(brokerage + other.brokerage, taxes + other.taxes,
                    transactionFees + other.transactionFees,
                    regulatoryFees + other.regulatoryFees, gst + other.gst)
    }
  }

  const NO_COSTS := CostBreakdown(0.0, 0.0, 0.0, 0.0, 0.0)

  datatype JournalEntry = JournalEntry(
    timestamp: int, event: Event, signalId: string, instrumentId: string, quantity: int, price: Option<real>)

  /** A closed trade; the labels it copies are read from its signal. */
  datatype Trade = Trade(
    signal: Signal, entryTime: int, exitTime: int, entryPrice: real, exitPrice: real, quantity: int,
    exitReason: ExitReason, entryCosts: CostBreakdown, exitCosts: CostBreakdown,
    grossPnl: real, netPnl: real, initialRisk: real, rMultiple: real, slippageCost: real)
  {
    function TotalCosts(): real {
      entryCosts.Total() + exitCosts.Total()
    }
  }

  datatype Position = Position(
    signal: Signal, entryTime: int, entryPrice: real, entryAsk: real, quantity: int, remainingQuantity: int,
    entryCosts: CostBreakdown, entrySlippage: real, exitQuantity: int, exitNotional: real,
    exitCosts: CostBreakdown, exitSlippage: real, exitReason: Option<ExitReason>,
    lastExitTime: Option<int>, lastExitAttempt: Option<int>)
  {
    /** Enough for an exit to be computable. */
    predicate Sound() {
      && signal.lotSize > 0 && signal.stopPrice < entryPrice
      && quantity > 0 && remainingQuantity > 0 && exitQuantity >= 0
    }
  }
}
