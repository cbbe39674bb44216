/** What the exchange sees: the order of calls for each job, and where the money is at any moment. */
module MoneyLedger {
  import opened Types
  import opened Seqs
  import opened Worker
  import opened Pipeline

  // ---------------------------------------------------------------------------
  // One job's calls
  // ---------------------------------------------------------------------------

  /**
   * At most one sell, within the automatic limit and for the deposit's own amount; a withdrawal only
   * after that sell succeeded, of exactly its proceeds, to the deposit's own payment method; nothing else.
   */
  ghost predicate ProperCalls(calls: seq<Call>, job: Job, maxAuto: int) {
    var d := job.deposit;
    || calls == []
    || (d.amount <= maxAuto &&
        ( || calls == [Sell(job.id, d.amount, None)]
          || exists proceeds ::
               var sold := Sell(job.id, d.amount, Some(proceeds));
               || calls == [sold]
               || calls == [sold, Withdraw(job.id, proceeds, d.paymentMethod, true)]
               || calls == [sold, Withdraw(job.id, proceeds, d.paymentMethod, false)]))
  }

  lemma LoggedIsProper(x: Exchange, maxAuto: int, a: Active)
    requires OnTrack(x, maxAuto, a)
    ensures ProperCalls(CallsSoFar(x, maxAuto, a), a.job, maxAuto)
  {
    var job := a.job;
    match x.sell(job.id)
    case Err(_) =>
    case Ok(s) =>
      assert CallsSoFar(x, maxAuto, a) == []
          || CallsSoFar(x, maxAuto, a)[0] == Sell(job.id, job.deposit.amount, Some(s.usdReceived));
  }

  lemma JobIsSomewhere(found: seq<seq<Job>>, s: Pipe, job: Job)
    requires Conserved(found, s) && job in Concat(found)
    ensures || job in Unsent(s) || job in s.queue
            || (exists k :: 0 <= k < |s.active| && s.active[k].job == job)
            || (exists k :: 0 <= k < |s.results| && s.results[k].job == job)
  {
    assert job in multiset(Concat(found));
    if job in Map(ActiveJob, s.active) {
      var k :| 0 <= k < |s.active| && Map(ActiveJob, s.active)[k] == job;
      assert s.active[k].job == job;
    } else if job in Map(DoneJob, s.results) {
      var k :| 0 <= k < |s.results| && Map(DoneJob, s.results)[k] == job;
      assert s.results[k].job == job;
    }
  }

  /** In every reachable state, the calls made for every job found are in proper order. */
  lemma CallsAlwaysProper(x: Exchange, maxAuto: int, found: seq<seq<Job>>, steps: seq<Step>, job: Job)
    requires DistinctBy(IdOf, Concat(found)) && job in Concat(found)
    ensures ProperCalls(CallsOf(Run(x, maxAuto, Start(found), steps).calls, job.id), job, maxAuto)
  {
    var s := Run(x, maxAuto, Start(found), steps);
    AlwaysConserved(x, maxAuto, found, steps);
    AlwaysFaithful(x, maxAuto, found, steps);
    JobIsSomewhere(found, s, job);
    if k :| 0 <= k < |s.active| && s.active[k].job == job {
      LoggedIsProper(x, maxAuto, s.active[k]);
    }
    if k :| 0 <= k < |s.results| && s.results[k].job == job {
      LoggedIsProper(x, maxAuto, Active(job, Finished(LiquidatePipeline(x, maxAuto, job).outcome)));
    }
  }

  // ---------------------------------------------------------------------------
  // What a finished job has done
  // ---------------------------------------------------------------------------

  /** The exchange accepts both requests for the job. */
  predicate BothAccepted(x: Exchange, id: JobId) {
    x.sell(id).Ok? && x.withdraw(id).Ok?
  }

  /** The step that was refused, for a job that did not get through. */
  function Refusal(x: Exchange, maxAuto: int, job: Job): Failure {
    if maxAuto < job.deposit.amount then ExceedsThreshold
    else if x.sell(job.id).Err? then SellFailed(x.sell(job.id).error)
    else WithdrawalFailed(if x.withdraw(job.id).Err? then x.withdraw(job.id).error else "")
  }

  /** The calls of a finished job: a sell if it is within the limit, and a withdrawal if that was accepted. */
  ghost predicate CallsMade(x: Exchange, maxAuto: int, job: Job, calls: seq<Call>) {
    && ((exists c :: c in calls && c.Sell?) <==> job.deposit.amount <= maxAuto)
    && ((exists c :: c in calls && c.Withdraw?) <==> job.deposit.amount <= maxAuto && x.sell(job.id).Ok?)
    && ((exists c :: c in calls && c.Withdraw? && c.accepted)
        <==> job.deposit.amount <= maxAuto && BothAccepted(x, job.id))
  }

  /** The outcome of a finished job: Initiated, with the exchange's answers, or the step that was refused. */
  ghost predicate Settles(x: Exchange, maxAuto: int, job: Job, o: Outcome) {
    && (o.Initiated? <==> job.deposit.amount <= maxAuto && BothAccepted(x, job.id))
    && (o.Initiated? ==>
          && o.orderId == x.sell(job.id).value.orderId
          && o.usdProceeds == x.sell(job.id).value.usdReceived
          && o.transferId == x.withdraw(job.id).value.transferId
          && o.initiatedAt == x.withdraw(job.id).value.initiatedAt)
    && (o.Failed? ==> o == Failed(Refusal(x, maxAuto, job), job.deposit.processedAt))
  }

  lemma PipelineSettles(x: Exchange, maxAuto: int, job: Job)
    ensures CallsMade(x, maxAuto, job, LiquidatePipeline(x, maxAuto, job).calls)
    ensures Settles(x, maxAuto, job, LiquidatePipeline(x, maxAuto, job).outcome)
  {
    var calls := LiquidatePipeline(x, maxAuto, job).calls;
    if job.deposit.amount <= maxAuto {
      assert calls[0] in calls && calls[0].Sell?;
      if x.sell(job.id).Ok? {
        assert calls[1] in calls && calls[1].Withdraw?;
      }
    }
  }

  /**
   * In every reachable state, every finished job has made just the calls, and has just the outcome, that the
   * limit and the exchange's answers call for; in particular, whatever was sold was asked to be withdrawn.
   */
  lemma FinishedJobsSettled(x: Exchange, maxAuto: int, found: seq<seq<Job>>, steps: seq<Step>, k: nat)
    requires DistinctBy(IdOf, Concat(found)) && k < |Run(x, maxAuto, Start(found), steps).results|
    ensures var s := Run(x, maxAuto, Start(found), steps);
            var job := s.results[k].job;
            && CallsMade(x, maxAuto, job, CallsOf(s.calls, job.id))
            && Settles(x, maxAuto, job, s.results[k].result.payment.outcome)
  {
    AlwaysFaithful(x, maxAuto, found, steps);
    PipelineSettles(x, maxAuto, Run(x, maxAuto, Start(found), steps).results[k].job);
  }

  // ---------------------------------------------------------------------------
  // The global call trace is exactly the jobs' own calls, interleaved
  // ---------------------------------------------------------------------------

  ghost predicate Shuffled(x: Exchange, maxAuto: int, s: Pipe) {
    multiset(s.calls)
      == multiset(Concat(ActiveLogs(x, maxAuto, s.active))) + multiset(Concat(DoneLogs(x, maxAuto, s.results)))
  }

  lemma RunJobKeepsShuffled(x: Exchange, maxAuto: int, s: Pipe, k: nat)
    requires Shuffled(x, maxAuto, s) && Enabled(s, RunJob(k)) && OnTrack(x, maxAuto, s.active[k])
    ensures Shuffled(x, maxAuto, Next(x, maxAuto, s, RunJob(k)))
  {
    var next := Advance(x, maxAuto, s.active[k]);
    var logs := ActiveLogs(x, maxAuto, s.active);
    AdvanceStaysOnTrack(x, maxAuto, s.active[k]);
    assert ActiveLogs(x, maxAuto, s.active[k := next.active]) == logs[k := logs[k] + next.calls];
    ConcatExtend(logs, k, next.calls);
  }

  lemma StartJobKeepsShuffled(x: Exchange, maxAuto: int, s: Pipe)
    requires Shuffled(x, maxAuto, s) && Enabled(s, StartJob)
    ensures Shuffled(x, maxAuto, Next(x, maxAuto, s, StartJob))
  {
    var logs := ActiveLogs(x, maxAuto, s.active);
    assert ActiveLogs(x, maxAuto, s.active + [Active(s.queue[0], Started)]) == logs + [[]];
    ConcatSnoc(logs, []);
  }

  lemma CollectLogs(x: Exchange, maxAuto: int, active: seq<Active>, results: seq<Done>, k: nat, d: Done)
    requires k < |active| && active[k].stage.Finished? && d.job == active[k].job
    ensures multiset(Concat(ActiveLogs(x, maxAuto, Remove(active, k)))) + multiset(Concat(DoneLogs(x, maxAuto,
            results + [d])))
         == multiset(Concat(ActiveLogs(x, maxAuto, active))) + multiset(Concat(DoneLogs(x, maxAuto, results)))
  {
    var logs, done := ActiveLogs(x, maxAuto, active), DoneLogs(x, maxAuto, results);
    assert ActiveLogs(x, maxAuto, Remove(active, k)) == Remove(logs, k);
    assert DoneLogs(x, maxAuto, results + [d]) == done + [logs[k]];
    ConcatRemove(logs, k);
    ConcatSnoc(done, logs[k]);
  }

  lemma NextKeepsShuffled(x: Exchange, maxAuto: int, s: Pipe, step: Step)
    requires Shuffled(x, maxAuto, s) && Faithful(x, maxAuto, s) && Enabled(s, step)
    ensures Shuffled(x, maxAuto, Next(x, maxAuto, s, step))
  {
    if step.StartJob? {
      StartJobKeepsShuffled(x, maxAuto, s);
    } else if step.RunJob? {
      RunJobKeepsShuffled(x, maxAuto, s, step.k);
    } else if step.Collect? {
      CollectLogs(x, maxAuto, s.active, s.results, step.k, Next(x, maxAuto, s, step).results[|s.results|]);
    }
  }

  lemma {:induction false} AlwaysShuffled(x: Exchange, maxAuto: int, found: seq<seq<Job>>, steps: seq<Step>)
    requires DistinctBy(IdOf, Concat(found))
    ensures Shuffled(x, maxAuto, Run(x, maxAuto, Start(found), steps))
  {
    if steps != [] {
      var n := |steps| - 1;
      var s := Run(x, maxAuto, Start(found), steps[..n]);
      AlwaysShuffled(x, maxAuto, found, steps[..n]);
      AlwaysFaithful(x, maxAuto, found, steps[..n]);
      if Enabled(s, steps[n]) {
        NextKeepsShuffled(x, maxAuto, s, steps[n]);
      }
    }
  }

  // ---------------------------------------------------------------------------
  // Balances
  // ---------------------------------------------------------------------------

  /** Effect of a call on the USD balance at the exchange. */
  function Credit(c: Call): int {
    match c
    case Sell(_, _, proceeds) => if proceeds.Some? then proceeds.value else 0
    case Withdraw(_, amount, _, accepted) => if accepted then -amount else 0
  }

  function PaidOut(c: Call): int {
    if c.Withdraw? && c.accepted then c.amount else 0
  }

  /** Proceeds a settled outcome leaves at the exchange: those of a sale whose withdrawal failed. */
  function Stranded(x: Exchange, id: JobId, o: Outcome): int {
    if o.Failed? && o.error.WithdrawalFailed? && x.sell(id).Ok? then x.sell(id).value.usdReceived else 0
  }

  /** Proceeds sold but not withdrawn for a job in flight. */
  function Held(x: Exchange): Active -> int {
    (a: Active) =>
      match a.stage
      case Started => 0
      case Sold(s) => s.usdReceived
      case Settled(s) => s.usdReceived
      case Finished(o) => Stranded(x, a.job.id, o)
  }

  /** Proceeds sold but not withdrawn for a finished job. */
  function HeldByDone(x: Exchange): Done -> int {
    (d: Done) => Stranded(x, d.job.id, d.result.payment.outcome)
  }

  function InitiatedProceeds(o: Outcome): int {
    if o.Initiated? then o.usdProceeds else 0
  }

  function ActiveInitiated(a: Active): int {
    if a.stage.Finished? then InitiatedProceeds(a.stage.outcome) else 0
  }

  function DoneInitiated(d: Done): int {
    InitiatedProceeds(d.result.payment.outcome)
  }

  lemma LogTotals(x: Exchange, maxAuto: int, a: Active)
    requires OnTrack(x, maxAuto, a)
    ensures Sum(Credit, CallsSoFar(x, maxAuto, a)) == Held(x)(a)
    ensures Sum(PaidOut, CallsSoFar(x, maxAuto, a)) == ActiveInitiated(a)
  {
    var log := CallsSoFar(x, maxAuto, a);
    if |log| == 2 {
      assert log == [log[0]] + [log[1]];
      SumAppend(Credit, [log[0]], [log[1]]);
      SumAppend(PaidOut, [log[0]], [log[1]]);
    }
  }

  lemma {:induction false} ActiveTotals(x: Exchange, maxAuto: int, active: seq<Active>)
    requires forall k :: 0 <= k < |active| ==> OnTrack(x, maxAuto, active[k])
    ensures Sum(Credit, Concat(ActiveLogs(x, maxAuto, active))) == Sum(Held(x), active)
    ensures Sum(PaidOut, Concat(ActiveLogs(x, maxAuto, active))) == Sum(ActiveInitiated, active)
  {
    if active != [] {
      var logs := ActiveLogs(x, maxAuto, active);
      assert logs[1..] == ActiveLogs(x, maxAuto, active[1..]);
      ActiveTotals(x, maxAuto, active[1..]);
      LogTotals(x, maxAuto, active[0]);
      SumAppend(Credit, logs[0], Concat(logs[1..]));
      SumAppend(PaidOut, logs[0], Concat(logs[1..]));
    }
  }

  lemma {:induction false} DoneTotals(x: Exchange, maxAuto: int, results: seq<Done>)
    requires forall k :: 0 <= k < |results| ==> results[k].result == LiquidateOne(x, maxAuto, results[k].job)
    ensures Sum(Credit, Concat(DoneLogs(x, maxAuto, results))) == Sum(HeldByDone(x), results)
    ensures Sum(PaidOut, Concat(DoneLogs(x, maxAuto, results))) == Sum(DoneInitiated, results)
  {
    if results != [] {
      var logs := DoneLogs(x, maxAuto, results);
      assert logs[1..] == DoneLogs(x, maxAuto, results[1..]);
      DoneTotals(x, maxAuto, results[1..]);
      var job := results[0].job;
      LogTotals(x, maxAuto, Active(job, Finished(LiquidatePipeline(x, maxAuto, job).outcome)));
      SumAppend(Credit, logs[0], Concat(logs[1..]));
      SumAppend(PaidOut, logs[0], Concat(logs[1..]));
    }
  }

  /**
   * At every moment of every interleaving, the exchange balance has moved by exactly the proceeds
   * sold and not yet withdrawn, and the money withdrawn is what the Initiated outcomes say.
   */
  lemma BooksBalance(x: Exchange, maxAuto: int, found: seq<seq<Job>>, steps: seq<Step>)
    requires DistinctBy(IdOf, Concat(found))
    ensures var s := Run(x, maxAuto, Start(found), steps);
            && Sum(Credit, s.calls) == Sum(Held(x), s.active) + Sum(HeldByDone(x), s.results)
            && Sum(PaidOut, s.calls) == Sum(ActiveInitiated, s.active) + Sum(DoneInitiated, s.results)
  {
    var s := Run(x, maxAuto, Start(found), steps);
    AlwaysFaithful(x, maxAuto, found, steps);
    AlwaysShuffled(x, maxAuto, found, steps);
    var a, d := Concat(ActiveLogs(x, maxAuto, s.active)), Concat(DoneLogs(x, maxAuto, s.results));
    assert multiset(s.calls) == multiset(a + d);
    SumPerm(Credit, s.calls, a + d);
    SumPerm(PaidOut, s.calls, a + d);
    SumAppend(Credit, a, d);
    SumAppend(PaidOut, a, d);
    ActiveTotals(x, maxAuto, s.active);
    DoneTotals(x, maxAuto, s.results);
  }
}
