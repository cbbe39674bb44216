/** The money over many runs: no deposit is sold or paid out twice, and all payouts are in the ledger. */
module MoneyHistory {
  import opened Types
  import opened Seqs
  import opened Discovery
  import opened Worker
  import opened Pipeline
  import opened MoneyLedger
  import opened Orchestrator
  import opened Runs
  import opened Completeness
  import opened Coverage
  import opened AtMostOnce
  import opened TransferLedger
  import opened AuditTrail

  // ---------------------------------------------------------------------------
  // The calls made for one deposit
  // ---------------------------------------------------------------------------

  /** Call c was made for a deposit with this chain, address and hash. */
  predicate CallFor(lists: seq<seq<EligibleDeposit>>, key: DepositKey, c: Call) {
    && c.id.producer < |lists| && c.id.index < |lists[c.id.producer]|
    && KeyOfDeposit(lists[c.id.producer][c.id.index]) == key
  }

  function CallsFor(calls: seq<Call>, lists: seq<seq<EligibleDeposit>>, key: DepositKey): seq<Call> {
    if calls == [] then []
    else
      CallsFor(calls[..|calls| - 1], lists, key)
      + if CallFor(lists, key, calls[|calls| - 1]) then [calls[|calls| - 1]] else []
  }

  function ListsOf(w: World, e: RunEnv): seq<seq<EligibleDeposit>> {
    SendLists(Discover(e.cfg, w.disk, e.views))
  }

  /** The money-moving calls of a run for deposits with this key, in the order in which they were made. */
  function RunCalls(w: World, e: RunEnv, key: DepositKey): seq<Call> {
    CallsFor(PipeAfter(w, e).calls, ListsOf(w, e), key)
  }

  lemma {:induction false} CallsForNone(calls: seq<Call>, lists: seq<seq<EligibleDeposit>>, key: DepositKey)
    requires forall c :: !CallFor(lists, key, c)
    ensures CallsFor(calls, lists, key) == []
  {
    if calls != [] {
      CallsForNone(calls[..|calls| - 1], lists, key);
    }
  }

  lemma {:induction false} CallsForOne(calls: seq<Call>, lists: seq<seq<EligibleDeposit>>, key: DepositKey, id: JobId)
    requires forall c :: CallFor(lists, key, c) <==> c.id == id
    ensures CallsFor(calls, lists, key) == CallsOf(calls, id)
  {
    if calls != [] {
      CallsForOne(calls[..|calls| - 1], lists, key, id);
    }
  }

  /** Where the elements of a concatenation differ, no element is in two places. */
  lemma OnePlace<T, K(!new)>(f: T -> K, ls: seq<seq<T>>, p: nat, i: nat, q: nat, j: nat)
    requires p <= q < |ls| && i < |ls[p]| && j < |ls[q]| && DistinctBy(f, Concat(ls)) && f(ls[p][i]) == f(ls[q][j])
    ensures p == q && i == j
  {
    var before := Concat(ls[..q]);
    ConcatAt(ls, q);
    assert Concat(ls)[|before| + j] == ls[q][j];
    forall k | 0 <= k < |before|
      ensures f(before[k]) != f(ls[q][j])
    {
      assert Concat(ls)[k] == before[k];
    }
    if p < q {
      assert ls[..q][p] == ls[p];
      ConcatIn(ls[..q], ls[p][i]);
    } else {
      assert Concat(ls)[|before| + i] == ls[q][i];
    }
  }

  /** With addresses configured once, all calls for a key are for one job. */
  lemma CallsAreOfOneJob(w: World, e: RunEnv, key: DepositKey, p: nat, i: nat)
    requires DistinctBy(AddressOf, e.cfg.addresses)
    requires p < |ListsOf(w, e)| && i < |ListsOf(w, e)[p]| && KeyOfDeposit(ListsOf(w, e)[p][i]) == key
    ensures RunCalls(w, e, key) == CallsOf(PipeAfter(w, e).calls, JobId(p, i))
  {
    var lists := ListsOf(w, e);
    SendsDistinct(w, e);
    forall c: Call
      ensures CallFor(lists, key, c) <==> c.id == JobId(p, i)
    {
      if CallFor(lists, key, c) {
        var q, j := c.id.producer, c.id.index;
        if p <= q {
          OnePlace(KeyOfDeposit, lists, p, i, q, j);
        } else {
          OnePlace(KeyOfDeposit, lists, q, j, p, i);
        }
      }
    }
    CallsForOne(PipeAfter(w, e).calls, lists, key, JobId(p, i));
  }

  /** The calls are at most one sell and one withdrawal of its proceeds, for a deposit with that key. */
  ghost predicate ProperFor(calls: seq<Call>, key: DepositKey, maxAuto: int) {
    exists job: Job :: KeyOfDeposit(job.deposit) == key && ProperCalls(calls, job, maxAuto)
  }

  /** In every run, killed or not, the calls for each key are proper, and there are none for what was not sent. */
  lemma RunCallsProper(w: World, e: RunEnv, key: DepositKey)
    requires DistinctBy(AddressOf, e.cfg.addresses)
    ensures RunCalls(w, e, key) == []
         || (ProperFor(RunCalls(w, e, key), key, e.cfg.maxAutoAmount) && key in Map(KeyOfDeposit, Sends(w, e)))
  {
    var lists := ListsOf(w, e);
    if c :| CallFor(lists, key, c) {
      var p, i := c.id.producer, c.id.index;
      CallsAreOfOneJob(w, e, key, p, i);
      var found := Tag(lists);
      var job := found[p][i];
      TagDistinct(lists);
      ConcatIn(found, job);
      CallsAlwaysProper(e.exchange, e.cfg.maxAutoAmount, found, e.schedule, job);
      assert ProperCalls(RunCalls(w, e, key), job, e.cfg.maxAutoAmount);
      ConcatIn(lists, lists[p][i]);
      MapIn(KeyOfDeposit, Sends(w, e), key);
    } else {
      CallsForNone(PipeAfter(w, e).calls, lists, key);
    }
  }

  // ---------------------------------------------------------------------------
  // Over many runs
  // ---------------------------------------------------------------------------

  /** All calls that the saved ones among the first n runs made for a key, in order. */
  function SavedCalls(ws: seq<World>, envs: seq<RunEnv>, n: nat, key: DepositKey): seq<Call>
    requires n <= |envs| && |ws| == |envs| + 1
  {
    if n == 0 then []
    else
      SavedCalls(ws, envs, n - 1, key) + if envs[n - 1].fate.Saved? then RunCalls(ws[n - 1], envs[n - 1], key) else []
  }

  lemma CalledIsLiquidated(w: World, e: RunEnv, key: DepositKey)
    requires DistinctBy(AddressOf, e.cfg.addresses) && PipeAfter(w, e).exited && RunCalls(w, e, key) != []
    ensures key in Map(KeyOfResult, Results(w, e))
  {
    RunCallsProper(w, e, key);
    ResultsReflectSends(w, e, KeyOfResult, KeyOfDeposit);
    SameMembers(Map(KeyOfResult, Results(w, e)), Map(KeyOfDeposit, Sends(w, e)));
  }

  lemma NotInBoth(a: seq<LiquidationResult>, b: seq<LiquidationResult>, key: DepositKey)
    requires DistinctBy(KeyOfResult, a + b) && key in Map(KeyOfResult, a)
    ensures key !in Map(KeyOfResult, b)
  {
    var i :| 0 <= i < |a| && Map(KeyOfResult, a)[i] == key;
    forall j | 0 <= j < |b|
      ensures KeyOfResult(b[j]) != key
    {
      assert (a + b)[i] == a[i] && (a + b)[|a| + j] == b[j];
    }
  }

  /** The calls of saved runs for a key are proper as a whole, and there are none unless it was liquidated. */
  ghost predicate CalledOnce(ws: seq<World>, envs: seq<RunEnv>, n: nat, key: DepositKey)
    requires n <= |envs| && |ws| == |envs| + 1
  {
    SavedCalls(ws, envs, n, key) != [] ==>
      && key in Map(KeyOfResult, ResultsOf(ws, envs, true, n))
      && exists i :: 0 <= i < n && envs[i].fate.Saved?
           && ProperFor(SavedCalls(ws, envs, n, key), key, envs[i].cfg.maxAutoAmount)
  }

  lemma SavedRunCallsOnce(ws: seq<World>, envs: seq<RunEnv>, n: nat, key: DepositKey)
    requires 0 < n <= |envs| && |ws| == |envs| + 1 && envs[n - 1].fate.Saved?
    requires DistinctBy(AddressOf, envs[n - 1].cfg.addresses) && PipeAfter(ws[n - 1], envs[n - 1]).exited
    requires DistinctBy(KeyOfResult, ResultsOf(ws, envs, true, n)) && CalledOnce(ws, envs, n - 1, key)
    ensures CalledOnce(ws, envs, n, key)
  {
    var w, e, before := ws[n - 1], envs[n - 1], ResultsOf(ws, envs, true, n - 1);
    var sofar, more := SavedCalls(ws, envs, n - 1, key), RunCalls(w, e, key);
    hide Results, PipeAfter, RunCalls, ProperFor;
    assert Map(KeyOfResult, before + Results(w, e)) == Map(KeyOfResult, before) + Map(KeyOfResult, Results(w, e));
    RunCallsProper(w, e, key);
    if more != [] {
      CalledIsLiquidated(w, e, key);
      if sofar != [] {
        NotInBoth(before, Results(w, e), key);
        assert false;
      }
      assert SavedCalls(ws, envs, n, key) == more;
    } else {
      assert SavedCalls(ws, envs, n, key) == sofar;
    }
  }

  lemma UnsavedRunKeepsCalls(ws: seq<World>, envs: seq<RunEnv>, n: nat, key: DepositKey)
    requires 0 < n <= |envs| && |ws| == |envs| + 1 && !envs[n - 1].fate.Saved? && CalledOnce(ws, envs, n - 1, key)
    ensures CalledOnce(ws, envs, n, key)
  {
    hide ProperFor;
    assert SavedCalls(ws, envs, n, key) == SavedCalls(ws, envs, n - 1, key);
    assert ResultsOf(ws, envs, true, n) == ResultsOf(ws, envs, true, n - 1);
  }

  /**
   * No deposit is sold or paid out twice. Over any history, all calls that saved runs make for one chain,
   * address and hash are together at most one sell and, if that succeeded, one withdrawal of its proceeds.
   */
  lemma {:induction false} SoldAndPaidOnce(ws: seq<World>, envs: seq<RunEnv>, canon: Chain -> Contents,
        home: string -> Home, mayForget: bool, n: nat, key: DepositKey)
    requires History(ws, envs) && n <= |envs| && CarefulWhenSaved(ws, envs, canon, home, mayForget, n)
    ensures CalledOnce(ws, envs, n, key)
  {
    hide CalledOnce, RunOnce, ResultsOf, Homes, FloorsNeverFall, Careful, PipeAfter;
    if n > 0 {
      SoldAndPaidOnce(ws, envs, canon, home, mayForget, n - 1, key);
      SavedNeverRepeated(ws, envs, canon, home, mayForget, n);
      assert IsRun(ws, envs, n - 1);
      if envs[n - 1].fate.Saved? {
        CarefulMeansDistinct(ws, envs, canon, home, mayForget, n - 1);
        SavedRunCallsOnce(ws, envs, n, key);
      } else {
        UnsavedRunKeepsCalls(ws, envs, n, key);
      }
    } else {
      NoCallsAtFirst(ws, envs, key);
    }
  }

  lemma CarefulMeansDistinct(ws: seq<World>, envs: seq<RunEnv>, canon: Chain -> Contents, home: string -> Home,
        mayForget: bool, i: nat)
    requires i < |envs| && |ws| == |envs| + 1 && Careful(ws, envs, canon, home, mayForget, i)
    ensures DistinctBy(AddressOf, envs[i].cfg.addresses)
  {
  }

  lemma NoCallsAtFirst(ws: seq<World>, envs: seq<RunEnv>, key: DepositKey)
    requires |ws| == |envs| + 1
    ensures CalledOnce(ws, envs, 0, key)
  {
  }

  // ---------------------------------------------------------------------------
  // Payouts
  // ---------------------------------------------------------------------------

  function ResultInitiated(r: LiquidationResult): int {
    InitiatedProceeds(r.payment.outcome)
  }

  /** All money paid out by accepted withdrawals in the first n runs. */
  function TotalPaidOut(ws: seq<World>, envs: seq<RunEnv>, n: nat): int
    requires n <= |envs| && |ws| == |envs| + 1
  {
    if n == 0 then 0
    else TotalPaidOut(ws, envs, n - 1) + Sum(PaidOut, PipeAfter(ws[n - 1], envs[n - 1]).calls)
  }

  /** What killed runs had paid out for jobs whose results they had not collected yet. */
  function Uncollected(ws: seq<World>, envs: seq<RunEnv>, n: nat): int
    requires n <= |envs| && |ws| == |envs| + 1
  {
    if n == 0 then 0
    else Uncollected(ws, envs, n - 1) + Sum(ActiveInitiated, PipeAfter(ws[n - 1], envs[n - 1]).active)
  }

  lemma {:induction false} SumOfResults(done: seq<Done>)
    ensures Sum(ResultInitiated, Map(ResultIn, done)) == Sum(DoneInitiated, done)
  {
    if done != [] {
      assert Map(ResultIn, done)[1..] == Map(ResultIn, done[1..]);
      SumOfResults(done[1..]);
    }
  }

  lemma RunPaysOut(w: World, e: RunEnv)
    ensures Sum(PaidOut, PipeAfter(w, e).calls)
         == Sum(ActiveInitiated, PipeAfter(w, e).active) + Sum(ResultInitiated, Results(w, e))
    ensures PipeAfter(w, e).exited ==> PipeAfter(w, e).active == []
  {
    TagDistinct(ListsOf(w, e));
    BooksBalance(e.exchange, e.cfg.maxAutoAmount, Tag(ListsOf(w, e)), e.schedule);
    AlwaysConserved(e.exchange, e.cfg.maxAutoAmount, Tag(ListsOf(w, e)), e.schedule);
    SumOfResults(PipeAfter(w, e).results);
  }

  /**
   * Over any history, the accepted withdrawals of all runs sum to the proceeds of the Initiated outcomes in
   * the ledger, and what killed runs had paid out without collecting it; without kills that is nothing.
   */
  lemma {:induction false} PayoutsInLedger(ws: seq<World>, envs: seq<RunEnv>, n: nat)
    requires History(ws, envs) && n <= |envs|
    ensures TotalPaidOut(ws, envs, n) == Sum(ResultInitiated, ws[n].done) + Uncollected(ws, envs, n)
    ensures (forall i :: 0 <= i < n ==> !envs[i].fate.Crashed?) ==> Uncollected(ws, envs, n) == 0
  {
    hide PipeAfter, Results;
    if n > 0 {
      var w, e := ws[n - 1], envs[n - 1];
      PayoutsInLedger(ws, envs, n - 1);
      assert IsRun(ws, envs, n - 1);
      RunPaysOut(w, e);
      SumAppend(ResultInitiated, w.done, Results(w, e));
    }
  }

  // ---------------------------------------------------------------------------
  // From the chain to the bank
  // ---------------------------------------------------------------------------

  /** The exchange accepts whatever it is asked in this run. */
  ghost predicate AcceptsAll(x: Exchange) {
    forall id :: BothAccepted(x, id)
  }

  /** The run had an accepted withdrawal of this amount to this payment method. */
  ghost predicate PaysTo(w: World, e: RunEnv, amount: int, paymentMethod: string) {
    exists id :: Withdraw(id, amount, paymentMethod, true) in PipeAfter(w, e).calls
  }

  lemma {:induction false} CallsOfIn(calls: seq<Call>, id: JobId, call: Call)
    requires call in CallsOf(calls, id)
    ensures call in calls
  {
    if calls != [] && call != calls[|calls| - 1] {
      CallsOfIn(calls[..|calls| - 1], id, call);
    }
  }

  /** A result is Initiated, and its withdrawal made, when it is within the limit and the exchange accepts. */
  lemma ResultPaidOut(w: World, e: RunEnv, r: LiquidationResult)
    requires r in Results(w, e) && AcceptsAll(e.exchange)
    ensures r.payment.outcome.Initiated? <==> r.payment.amount <= e.cfg.maxAutoAmount
    ensures r.payment.outcome.Initiated? ==> PaysTo(w, e, r.payment.outcome.usdProceeds, r.payment.paymentMethod)
    ensures r.payment.outcome.Failed? ==> r.payment.outcome.error == ExceedsThreshold
  {
    var x, maxAuto, found, s := e.exchange, e.cfg.maxAutoAmount, Tag(ListsOf(w, e)), PipeAfter(w, e);
    TagDistinct(ListsOf(w, e));
    AlwaysFaithful(x, maxAuto, found, e.schedule);
    var k :| 0 <= k < |s.results| && Map(ResultIn, s.results)[k] == r;
    var job := s.results[k].job;
    assert BothAccepted(x, job.id);
    PipelineSettles(x, maxAuto, job);
    if job.deposit.amount <= maxAuto {
      var call := LiquidatePipeline(x, maxAuto, job).calls[1];
      CallsOfIn(s.calls, job.id, call);
    }
  }

  /** In a completed run with an exchange that accepts, every deposit sent within the limit is paid out. */
  lemma SentIsPaidOut(w: World, e: RunEnv, d: EligibleDeposit) returns (r: LiquidationResult)
    requires PipeAfter(w, e).exited && AcceptsAll(e.exchange)
    requires d in Sends(w, e) && d.amount <= e.cfg.maxAutoAmount
    ensures r in Results(w, e) && DepositDescribed(r) == d && r.payment.outcome.Initiated?
    ensures PaysTo(w, e, r.payment.outcome.usdProceeds, d.paymentMethod)
  {
    RecordsReproduceSends(w, e);
    SameMembers(Map(DepositDescribed, Results(w, e)), Sends(w, e));
    MapIn(DepositDescribed, Results(w, e), d);
    r :| r in Results(w, e) && DepositDescribed(r) == d;
    ResultPaidOut(w, e, r);
  }

  lemma {:induction false} DoneComesFromRun(ws: seq<World>, envs: seq<RunEnv>, n: nat, r: LiquidationResult)
    returns (j: nat)
    requires History(ws, envs) && n <= |envs| && r in ws[n].done
    ensures j < n && r in Results(ws[j], envs[j])
  {
    hide Results;
    DoneNext(ws, envs, n - 1);
    if r in Results(ws[n - 1], envs[n - 1]) {
      j := n - 1;
    } else {
      j := DoneComesFromRun(ws, envs, n - 1, r);
    }
  }

  /** Some run had an accepted withdrawal for the transfer, and the ledger says so. */
  ghost predicate ReachedBank(ws: seq<World>, envs: seq<RunEnv>, n: nat, c: Chain, a: string, t: Transfer)
    requires n <= |envs| && |ws| == |envs| + 1
  {
    exists r, j: nat :: j < n && r in ws[n].done && r in Results(ws[j], envs[j])
      && ClaimOfResult(r) == Claim(c, a, t) && r.payment.outcome.Initiated?
      && PaysTo(ws[j], envs[j], r.payment.outcome.usdProceeds, r.payment.paymentMethod)
  }

  /**
   * From the chain to the bank. With one transfer per transaction and an exchange that accepts: over any
   * history of other failures, every transfer within the limit in a block that the frontier has passed
   * while its address was watched has been sold and paid out.
   */
  lemma PassedReachesBank(ws: seq<World>, envs: seq<RunEnv>, canon: Chain -> Contents, origin: string -> Origin,
        k: nat, n: nat, c: Chain, a: string, b: u64, t: Transfer)
    requires History(ws, envs) && k <= n <= |envs| && forall i :: 0 <= i < n ==> SeesFinalBlocks(canon, envs[i])
    requires forall i :: k <= i < n ==> Watches(envs[i], c, a, b)
    requires Origins(canon, origin) && IsTransfer(canon, c, a, b, t) && PassedSince(ws, k, n, c, b)
    requires forall i :: 0 <= i < n ==> AcceptsAll(envs[i].exchange) && t.amount <= envs[i].cfg.maxAutoAmount
    ensures ReachedBank(ws, envs, n, c, a, t)
  {
    NoTransferLost(ws, envs, canon, origin, k, n, c, a, b, t);
    hide Results, AcceptsAll, PaysTo, PassedSince, Origins;
    var r :| r in ws[n].done && ClaimOfResult(r) == Claim(c, a, t);
    var j := DoneComesFromRun(ws, envs, n, r);
    ResultPaidOut(ws[j], envs[j], r);
  }
}
