/** One liquidation: threshold check, sell, settle, withdraw. */
module Worker {
  import opened Types
  import AuditKeys

  const MAX_CONCURRENT_JOBS: nat := 5

  /** Which producer sent a deposit, and as which of its sends. */
  datatype JobId = JobId(producer: nat, index: nat)

  datatype Job = Job(id: JobId, deposit: EligibleDeposit)

  /** The exchange's answer to the calls made for each job. */
  datatype Exchange = Exchange(
    sell: JobId -> Result<SellResult>,
    withdraw: JobId -> Result<WithdrawalResult>)

  /** A money-moving request to the exchange, with its result. */
  datatype Call =
    | Sell(id: JobId, amount: int, proceeds: Option<int>)
    | Withdraw(id: JobId, amount: int, paymentMethod: string, accepted: bool)

  datatype Liquidation = Liquidation(outcome: Outcome, calls: seq<Call>)

  function Fail(d: EligibleDeposit, error: Failure): Outcome {
    Failed(error, d.processedAt)
  }

  /** The pipeline of one job run start to end, with the calls it makes. */
  function LiquidatePipeline(x: Exchange, maxAuto: int, job: Job): Liquidation {
    var d := job.deposit;
    if d.amount > maxAuto then Liquidation(Fail(d, ExceedsThreshold), [])
    else match x.sell(job.id)
      case Err(e) => Liquidation(Fail(d, SellFailed(e)), [Sell(job.id, d.amount, None)])
      case Ok(s) =>
        var sold := Sell(job.id, d.amount, Some(s.usdReceived));
        match x.withdraw(job.id)
        case Err(e) =>
          Liquidation(Fail(d, WithdrawalFailed(e)), [sold, Withdraw(job.id, s.usdReceived, d.paymentMethod, false)])
        case Ok(w) =>
          Liquidation(Initiated(s.orderId, s.usdReceived, w.transferId, w.initiatedAt),
                      [sold, Withdraw(job.id, s.usdReceived, d.paymentMethod, true)])
  }

  function ResultFor(d: EligibleDeposit, outcome: Outcome): LiquidationResult {
    LiquidationResult(d.txHash, BankPayment(
      AuditKeys.MakeId(d.processedAt, d.txHash), d.address, d.chain, d.txHash, d.amount,
      d.paymentMethod, outcome, d.depositedAt, d.processedAt))
  }

  function LiquidateOne(x: Exchange, maxAuto: int, job: Job): LiquidationResult {
    ResultFor(job.deposit, LiquidatePipeline(x, maxAuto, job).outcome)
  }

  // ---------------------------------------------------------------------------
  // The same pipeline, one await point at a time
  // ---------------------------------------------------------------------------

  datatype Stage = Started | Sold(sale: SellResult) | Settled(sale: SellResult) | Finished(outcome: Outcome)

  datatype Active = Active(job: Job, stage: Stage)

  datatype Advanced = Advanced(active: Active, calls: seq<Call>)

  /** Runs a job to its next await point and lists the calls made on the way. */
  function Advance(x: Exchange, maxAuto: int, a: Active): Advanced
    requires !a.stage.Finished?
  {
    var d := a.job.deposit;
    match a.stage
    case Started =>
      if d.amount > maxAuto then Advanced(Active(a.job, Finished(Fail(d, ExceedsThreshold))), [])
      else (match x.sell(a.job.id)
            case Err(e) => Advanced(Active(a.job, Finished(Fail(d, SellFailed(e)))), [Sell(a.job.id, d.amount, None)])
            case Ok(s) => Advanced(Active(a.job, Sold(s)), [Sell(a.job.id, d.amount, Some(s.usdReceived))]))
    case Sold(s) => Advanced(Active(a.job, Settled(s)), [])
    case Settled(s) =>
      match x.withdraw(a.job.id)
      case Err(e) =>
        Advanced(Active(a.job, Finished(Fail(d, WithdrawalFailed(e)))), [Withdraw(a.job.id, s.usdReceived,
            d.paymentMethod, false)])
      case Ok(w) =>
        Advanced(Active(a.job, Finished(Initiated(s.orderId, s.usdReceived, w.transferId, w.initiatedAt))),
                 [Withdraw(a.job.id, s.usdReceived, d.paymentMethod, true)])
  }

  /** The stage a job is in is one the sequential pipeline passes through. */
  predicate OnTrack(x: Exchange, maxAuto: int, a: Active) {
    match a.stage
    case Started => true
    case Sold(s) => a.job.deposit.amount <= maxAuto && x.sell(a.job.id) == Ok(s)
    case Settled(s) => a.job.deposit.amount <= maxAuto && x.sell(a.job.id) == Ok(s)
    case Finished(o) => o == LiquidatePipeline(x, maxAuto, a.job).outcome
  }

  /** The calls a job has made when it is in a given stage: a prefix of what it makes in all. */
  function CallsSoFar(x: Exchange, maxAuto: int, a: Active): seq<Call> {
    match a.stage
    case Started => []
    case Sold(s) => [Sell(a.job.id, a.job.deposit.amount, Some(s.usdReceived))]
    case Settled(s) => [Sell(a.job.id, a.job.deposit.amount, Some(s.usdReceived))]
    case Finished(_) => LiquidatePipeline(x, maxAuto, a.job).calls
  }

  lemma AdvanceStaysOnTrack(x: Exchange, maxAuto: int, a: Active)
    requires !a.stage.Finished? && OnTrack(x, maxAuto, a)
    ensures var next := Advance(x, maxAuto, a);
            && next.active.job == a.job
            && OnTrack(x, maxAuto, next.active)
            && CallsSoFar(x, maxAuto, next.active) == CallsSoFar(x, maxAuto, a) + next.calls
            && (forall c :: c in next.calls ==> c.id == a.job.id)
  {
  }
}
