/** Which of the chain's transfers are liquidated themselves, and not just another one of their transaction. */
module TransferLedger {
  import opened Types
  import opened Seqs
  import opened Discovery
  import opened Runs
  import opened Completeness
  import opened Coverage
  import opened AtMostOnce

  function AsTransfer(r: LiquidationResult): Transfer {
    Transfer(r.txHash, r.payment.amount)
  }

  datatype Claim = Claim(chain: Chain, address: string, transfer: Transfer)

  function ClaimOfResult(r: LiquidationResult): Claim {
    Claim(r.payment.chain, r.payment.address, AsTransfer(r))
  }

  function ClaimOfDeposit(d: EligibleDeposit): Claim {
    Claim(d.chain, d.address, Transfer(d.txHash, d.amount))
  }

  /** Transfer t to address a on chain c has a liquidation of its own among the results. */
  ghost predicate InLedger(done: seq<LiquidationResult>, c: Chain, a: string, t: Transfer) {
    exists r :: r in done && ClaimOfResult(r) == Claim(c, a, t)
  }

  ghost predicate IsTransfer(canon: Chain -> Contents, c: Chain, a: string, b: u64, t: Transfer) {
    t in canon(c)(a, b) && t.amount >= USDC_DUST_THRESHOLD
  }

  // ---------------------------------------------------------------------------
  // Soundness: no liquidation without a transfer
  // ---------------------------------------------------------------------------

  ghost predicate Genuine(canon: Chain -> Contents, c: Chain, a: string, t: Transfer) {
    exists b: u64 :: IsTransfer(canon, c, a, b, t)
  }

  ghost predicate LedgerSound(w: World, canon: Chain -> Contents) {
    forall r :: r in w.done ==> Genuine(canon, r.payment.chain, r.payment.address, AsTransfer(r))
  }

  lemma SendIsGenuine(w: World, e: RunEnv, canon: Chain -> Contents, d: EligibleDeposit)
    requires SeesFinalBlocks(canon, e) && d in Sends(w, e)
    ensures Genuine(canon, d.chain, d.address, Transfer(d.txHash, d.amount))
  {
    SendsMeaning(w, e, d);
    var c, i :| SentBy(w, e, c, i, d);
    var view := e.views(c);
    var b := SentComesFromChain(e.cfg, w.disk, c, e.cfg.addresses[i], SinceBlock(e.cfg, w.disk, c).value,
                                view.height.value, view.contents, view.scans(i), d);
    assert IsTransfer(canon, d.chain, d.address, b, Transfer(d.txHash, d.amount));
  }

  /** Also a run that is killed liquidates only genuine transfers. */
  lemma RunKeepsSound(w: World, e: RunEnv, canon: Chain -> Contents)
    requires LedgerSound(w, canon) && SeesFinalBlocks(canon, e)
    ensures LedgerSound(RunOnce(w, e), canon)
  {
    forall r | r in Results(w, e)
      ensures Genuine(canon, r.payment.chain, r.payment.address, AsTransfer(r))
    {
      var d, o := ResultComesFromSend(w, e, r);
      SendIsGenuine(w, e, canon, d);
    }
  }

  /** Over any history, failures and kills included, every liquidation is of a non-dust transfer on chain. */
  lemma {:induction false} LedgerAlwaysSound(ws: seq<World>, envs: seq<RunEnv>, canon: Chain -> Contents, n: nat)
    requires History(ws, envs) && n <= |envs| && forall i :: 0 <= i < n ==> SeesFinalBlocks(canon, envs[i])
    ensures LedgerSound(ws[n], canon)
  {
    hide RunOnce, Completes;
    if n > 0 {
      LedgerAlwaysSound(ws, envs, canon, n - 1);
      assert IsRun(ws, envs, n - 1);
      RunKeepsSound(ws[n - 1], envs[n - 1], canon);
    }
  }

  // ---------------------------------------------------------------------------
  // One run
  // ---------------------------------------------------------------------------

  /** A scan of the address sends exactly the new transfer that comes first of its transaction, if it gets there. */
  lemma ScanSendsItselfIff(w: World, e: RunEnv, canon: Chain -> Contents, home: string -> Home, c: Chain, i: int,
        a: string, b: u64, t: Transfer)
    requires SeesFinalBlocks(canon, e) && Homes(canon, home) && IsTransfer(canon, c, a, b, t)
    requires 0 <= i < |e.cfg.addresses| && e.cfg.addresses[i].address == a
    ensures (exists d :: SentBy(w, e, c, i, d) && Transfer(d.txHash, d.amount) == t)
       <==> t.txHash !in w.disk.processed && ScanCovers(w, e, c, i, b) && Leads(canon(c)(a, b), t)
  {
    var view, ac, since := e.views(c), e.cfg.addresses[i], SinceBlock(e.cfg, w.disk, c);
    if view.height.Some? && since.Some? {
      var current, required := view.height.value, e.cfg.ConfirmationsFor(c);
      assert OnlyInBlock(view.contents, a, t.txHash, b, current, required) by {
        forall b': u64, t': Transfer | FinalTransfer(view.contents, a, b', t', current, required)
            && t'.txHash == t.txHash
          ensures b' == b
        {
          assert t' in canon(c)(a, b');
        }
      }
      SentItselfIff(e.cfg, w.disk, c, ac, since.value, current, view.contents, view.scans(i), b, t);
      assert RunChain(e.cfg, w.disk, c, view).scans[i]
          == ScanSpec(e.cfg, w.disk, c, ac, since.value, current, view.contents, view.scans(i));
      hide ScanSpec, RunChain, Reaches;
      if d :| SentBy(w, e, c, i, d) && Transfer(d.txHash, d.amount) == t {
        assert SendsItself(e.cfg, w.disk, c, ac, since.value, current, view.contents, view.scans(i), t);
      }
      if SendsItself(e.cfg, w.disk, c, ac, since.value, current, view.contents, view.scans(i), t) {
        var d :| d in RunChain(e.cfg, w.disk, c, view).scans[i].sends && Transfer(d.txHash, d.amount) == t;
        assert SentBy(w, e, c, i, d);
      }
    }
  }

  /** The run meets the transfer in a scan, with its hash new, and as the first of its transaction. */
  ghost predicate Takes(w: World, e: RunEnv, canon: Chain -> Contents, c: Chain, a: string, b: u64, t: Transfer) {
    t.txHash !in w.disk.processed && Covers(w, e, c, a, b) && Leads(canon(c)(a, b), t)
  }

  /** Also a run that is killed liquidates no other transfers. */
  lemma LiquidatedMeansTaken(w: World, e: RunEnv, canon: Chain -> Contents, home: string -> Home, c: Chain, a: string,
        b: u64, t: Transfer)
    requires SeesFinalBlocks(canon, e) && Homes(canon, home) && IsTransfer(canon, c, a, b, t)
    requires InLedger(Results(w, e), c, a, t)
    ensures Takes(w, e, canon, c, a, b, t)
  {
    var r :| r in Results(w, e) && ClaimOfResult(r) == Claim(c, a, t);
    var d, o := ResultComesFromSend(w, e, r);
    SendsMeaning(w, e, d);
    var c', i :| SentBy(w, e, c', i, d);
    ScanSends(e.cfg, w.disk, c', e.views(c'), i);
    hide SentBy, Leads, ScanCovers;
    ScanSendsItselfIff(w, e, canon, home, c, i, a, b, t);
  }

  /** A completed run liquidates a transfer itself exactly when it takes it. */
  lemma RunLiquidatesItselfIff(w: World, e: RunEnv, canon: Chain -> Contents, home: string -> Home, c: Chain,
        a: string, b: u64, t: Transfer)
    requires SeesFinalBlocks(canon, e) && Homes(canon, home) && IsTransfer(canon, c, a, b, t)
    requires PipeAfter(w, e).exited
    ensures InLedger(Results(w, e), c, a, t) <==> Takes(w, e, canon, c, a, b, t)
  {
    hide SentBy, Leads;
    if InLedger(Results(w, e), c, a, t) {
      LiquidatedMeansTaken(w, e, canon, home, c, a, b, t);
    }
    if Takes(w, e, canon, c, a, b, t) {
      var i :| ScanCovers(w, e, c, i, b) && e.cfg.addresses[i].address == a;
      ScanSendsItselfIff(w, e, canon, home, c, i, a, b, t);
      var d :| SentBy(w, e, c, i, d) && Transfer(d.txHash, d.amount) == t;
      SentIsLiquidated(w, e, c, i, a, d);
    }
  }

  /** Without an outage: exactly when it is new, final, not before the restart block, and first of its transaction. */
  lemma LiquidatedWithoutOutageIff(w: World, e: RunEnv, canon: Chain -> Contents, home: string -> Home, c: Chain,
        i: nat, a: string, b: u64, t: Transfer)
    requires SeesFinalBlocks(canon, e) && Homes(canon, home) && IsTransfer(canon, c, a, b, t)
    requires PipeAfter(w, e).exited && e.views(c).height.Some? && SinceBlock(e.cfg, w.disk, c).Some?
    requires i < |e.cfg.addresses| && e.cfg.addresses[i].address == a && forall q :: !e.views(c).scans(i).down(q)
    ensures InLedger(Results(w, e), c, a, t)
       <==> && t.txHash !in w.disk.processed
            && SinceBlock(e.cfg, w.disk, c).value <= b
            && b + e.cfg.ConfirmationsFor(c) <= e.views(c).height.value
            && Leads(canon(c)(a, b), t)
  {
    RunLiquidatesItselfIff(w, e, canon, home, c, a, b, t);
    CoversWithoutOutage(w, e, c, i, b);
  }

  lemma SentIsLiquidated(w: World, e: RunEnv, c: Chain, i: int, a: string, d: EligibleDeposit)
    requires PipeAfter(w, e).exited && SentBy(w, e, c, i, d)
    requires 0 <= i < |e.cfg.addresses| && e.cfg.addresses[i].address == a
    ensures InLedger(Results(w, e), c, a, Transfer(d.txHash, d.amount))
  {
    ScanSends(e.cfg, w.disk, c, e.views(c), i);
    SendsMeaning(w, e, d);
    ResultsReflectSends(w, e, ClaimOfResult, ClaimOfDeposit);
    SameMembers(Map(ClaimOfResult, Results(w, e)), Map(ClaimOfDeposit, Sends(w, e)));
    MapIn(ClaimOfDeposit, Sends(w, e), ClaimOfDeposit(d));
    MapIn(ClaimOfResult, Results(w, e), ClaimOfDeposit(d));
  }

  // ---------------------------------------------------------------------------
  // Many runs
  // ---------------------------------------------------------------------------

  ghost predicate TakenBySome(ws: seq<World>, envs: seq<RunEnv>, n: nat, canon: Chain -> Contents, c: Chain,
        a: string, b: u64, t: Transfer)
    requires n <= |envs| && |ws| == |envs| + 1
  {
    exists j :: 0 <= j < n && Takes(ws[j], envs[j], canon, c, a, b, t)
  }

  lemma LedgerGrows(w: World, e: RunEnv, c: Chain, a: string, t: Transfer)
    ensures InLedger(RunOnce(w, e).done, c, a, t) <==> InLedger(w.done, c, a, t) || InLedger(Results(w, e), c, a, t)
  {
  }

  /**
   * A transfer is liquidated itself only if some run takes it, and, in runs that are not killed, exactly
   * then: some run scans its block while its hash is not in the dedup set, and it is the first transfer
   * of its transaction there. Saves may fail; nothing is asked of heights, frontiers or pruning.
   */
  lemma {:induction false} LiquidatedItselfIff(ws: seq<World>, envs: seq<RunEnv>, canon: Chain -> Contents,
        home: string -> Home, n: nat, c: Chain, a: string, b: u64, t: Transfer)
    requires History(ws, envs) && n <= |envs| && forall i :: 0 <= i < n ==> SeesFinalBlocks(canon, envs[i])
    requires Homes(canon, home) && IsTransfer(canon, c, a, b, t)
    ensures InLedger(ws[n].done, c, a, t) ==> TakenBySome(ws, envs, n, canon, c, a, b, t)
    ensures (forall i :: 0 <= i < n ==> !envs[i].fate.Crashed?) && TakenBySome(ws, envs, n, canon, c, a, b, t)
        ==> InLedger(ws[n].done, c, a, t)
  {
    hide RunOnce, InLedger, Takes, Homes, SeesFinalBlocks, IsTransfer, PipeAfter, Results;
    if n > 0 {
      var w, e := ws[n - 1], envs[n - 1];
      LiquidatedItselfIff(ws, envs, canon, home, n - 1, c, a, b, t);
      assert IsRun(ws, envs, n - 1);
      LedgerGrows(w, e, c, a, t);
      if InLedger(Results(w, e), c, a, t) {
        LiquidatedMeansTaken(w, e, canon, home, c, a, b, t);
      }
      if !e.fate.Crashed? {
        RunLiquidatesItselfIff(w, e, canon, home, c, a, b, t);
      }
    } else {
      NothingInNewLedger(c, a, t);
    }
  }

  lemma NothingInNewLedger(c: Chain, a: string, t: Transfer)
    ensures !InLedger(NEW_WORLD.done, c, a, t)
  {
  }

  /**
   * Of two different transfers of one transaction to one address, the later is never liquidated,
   * in no history, however far the frontier moves on.
   */
  lemma SecondTransferNeverLiquidated(ws: seq<World>, envs: seq<RunEnv>, canon: Chain -> Contents,
        home: string -> Home, n: nat, c: Chain, a: string, b: u64, t1: Transfer, t2: Transfer)
    requires History(ws, envs) && n <= |envs| && forall i :: 0 <= i < n ==> SeesFinalBlocks(canon, envs[i])
    requires Homes(canon, home) && IsTransfer(canon, c, a, b, t1) && IsTransfer(canon, c, a, b, t2)
    requires t1 != t2 && t1.txHash == t2.txHash
    ensures !Leads(canon(c)(a, b), t1) ==> !InLedger(ws[n].done, c, a, t1)
    ensures !(InLedger(ws[n].done, c, a, t1) && InLedger(ws[n].done, c, a, t2))
  {
    LiquidatedItselfIff(ws, envs, canon, home, n, c, a, b, t1);
    LiquidatedItselfIff(ws, envs, canon, home, n, c, a, b, t2);
    hide InLedger, Covers;
  }

  // ---------------------------------------------------------------------------
  // One transfer per transaction
  // ---------------------------------------------------------------------------

  /** All there is to know about the one non-dust transfer that a transaction makes. */
  datatype Origin = Origin(chain: Chain, address: string, block: u64, amount: int)

  ghost predicate Origins(canon: Chain -> Contents, origin: string -> Origin) {
    forall c: Chain, a: string, b: u64, t ::
      IsTransfer(canon, c, a, b, t) ==> origin(t.txHash) == Origin(c, a, b, t.amount)
  }

  function HomeIn(origin: string -> Origin): string -> Home {
    (h: string) => Home(origin(h).chain, origin(h).block)
  }

  lemma OriginsAreHomes(canon: Chain -> Contents, origin: string -> Origin)
    requires Origins(canon, origin)
    ensures Homes(canon, HomeIn(origin))
  {
    forall c: Chain, a: string, b: u64, t | t in canon(c)(a, b) && t.amount >= USDC_DUST_THRESHOLD
      ensures HomeIn(origin)(t.txHash) == Home(c, b)
    {
      assert IsTransfer(canon, c, a, b, t);
    }
  }

  /** Then a liquidation with the transfer's hash is its own. */
  lemma LiquidatedIsItself(w: World, canon: Chain -> Contents, origin: string -> Origin, c: Chain, a: string, b: u64,
        t: Transfer)
    requires Origins(canon, origin) && LedgerSound(w, canon) && IsTransfer(canon, c, a, b, t)
    ensures Liquidated(w, t.txHash) <==> InLedger(w.done, c, a, t)
  {
    if r :| r in w.done && r.txHash == t.txHash {
      assert Genuine(canon, r.payment.chain, r.payment.address, AsTransfer(r));
    }
  }

  /** Where no run is killed, a transfer is liquidated exactly when some run has scanned its block. */
  lemma LiquidatedIffScanned(ws: seq<World>, envs: seq<RunEnv>, canon: Chain -> Contents,
        origin: string -> Origin, n: nat, c: Chain, a: string, b: u64, t: Transfer)
    requires History(ws, envs) && n <= |envs| && Origins(canon, origin) && IsTransfer(canon, c, a, b, t)
    requires forall i :: 0 <= i < n ==> SeesFinalBlocks(canon, envs[i]) && !envs[i].fate.Crashed?
    ensures InLedger(ws[n].done, c, a, t) <==> Scanned(ws, envs, n, c, a, b)
  {
    OriginsAreHomes(canon, origin);
    LiquidatedItselfIff(ws, envs, canon, HomeIn(origin), n, c, a, b, t);
    LedgerAlwaysSound(ws, envs, canon, n);
    LiquidatedIsItself(ws[n], canon, origin, c, a, b, t);
    hide InLedger, Covers, LedgerSound, SeesFinalBlocks, RunOnce, Leads;
    if j :| 0 <= j < n && Covers(ws[j], envs[j], c, a, b) {
      if t.txHash in ws[j].disk.processed {
        DedupAlwaysHonest(ws, envs, j);
        LiquidatedForGood(ws, envs, t.txHash, j, n);
      } else {
        OnlyOneLeads(canon, origin, c, a, b, t);
      }
    }
  }

  lemma OnlyOneLeads(canon: Chain -> Contents, origin: string -> Origin, c: Chain, a: string, b: u64, t: Transfer)
    requires Origins(canon, origin) && IsTransfer(canon, c, a, b, t)
    ensures Leads(canon(c)(a, b), t)
  {
    var ts := canon(c)(a, b);
    var k :| 0 <= k < |ts| && ts[k] == t;
    var m := LeaderOf(ts, k);
    assert IsTransfer(canon, c, a, b, ts[m]);
  }

  lemma {:induction false} LeaderOf(ts: seq<Transfer>, k: nat) returns (m: nat)
    requires k < |ts| && ts[k].amount >= USDC_DUST_THRESHOLD
    ensures m <= k && LeadsAt(ts, m) && ts[m].txHash == ts[k].txHash
  {
    if LeadsAt(ts, k) {
      m := k;
    } else {
      var j :| 0 <= j < k && ts[j].amount >= USDC_DUST_THRESHOLD && ts[j].txHash == ts[k].txHash;
      m := LeaderOf(ts, j);
    }
  }

  /** What a saved run has scanned is liquidated, by that run or by an earlier saved one. */
  lemma SavedScanIsLiquidated(ws: seq<World>, envs: seq<RunEnv>, canon: Chain -> Contents, n: nat, c: Chain, a: string,
        b: u64, t: Transfer)
    requires History(ws, envs) && n <= |envs| && forall i :: 0 <= i < n ==> SeesFinalBlocks(canon, envs[i])
    requires IsTransfer(canon, c, a, b, t) && SavedScan(ws, envs, n, c, a, b)
    ensures exists r :: r in ResultsOf(ws, envs, true, n) && r.txHash == t.txHash
  {
    hide RunOnce, Completes, SeesFinalBlocks, Covers;
    var j :| 0 <= j < n && envs[j].fate.Saved? && Covers(ws[j], envs[j], c, a, b);
    assert IsRun(ws, envs, j);
    if t.txHash in ws[j].disk.processed {
      InDedupIff(ws, envs, j, t.txHash);
      var i: nat :| i < j && SentAndKept(ws, envs, j, t.txHash, i);
      SavedSendInResults(ws, envs, i, n, t.txHash);
    } else {
      CoveredHashIsSent(ws[j], envs[j], canon, c, a, b, t);
      SavedSendInResults(ws, envs, j, n, t.txHash);
    }
  }

  lemma CoveredHashIsSent(w: World, e: RunEnv, canon: Chain -> Contents, c: Chain, a: string, b: u64, t: Transfer)
    requires SeesFinalBlocks(canon, e) && IsTransfer(canon, c, a, b, t) && Covers(w, e, c, a, b)
    requires t.txHash !in w.disk.processed
    ensures SendsHash(w, e, t.txHash)
  {
    var i :| ScanCovers(w, e, c, i, b) && e.cfg.addresses[i].address == a;
    CoveredIsSent(w, e, canon, c, i, b, t);
  }

  /** What a saved run sends is among the results of saved runs from then on. */
  lemma SavedSendInResults(ws: seq<World>, envs: seq<RunEnv>, j: nat, n: nat, h: string)
    requires History(ws, envs) && j < n <= |envs| && envs[j].fate.Saved? && SendsHash(ws[j], envs[j], h)
    ensures exists r :: r in ResultsOf(ws, envs, true, n) && r.txHash == h
  {
    hide RunOnce;
    assert IsRun(ws, envs, j);
    ResultHashes(ws[j], envs[j], h);
    var r :| r in Results(ws[j], envs[j]) && r.txHash == h;
    ResultsOfMeaning(ws, envs, true, n, r);
  }

  lemma {:induction false} ResultsOfMeaning(ws: seq<World>, envs: seq<RunEnv>, saved: bool, n: nat,
        r: LiquidationResult)
    requires n <= |envs| && |ws| == |envs| + 1
    ensures r in ResultsOf(ws, envs, saved, n)
       <==> exists j :: 0 <= j < n && envs[j].fate.Saved? == saved && r in Results(ws[j], envs[j])
  {
    hide Results;
    if n > 0 {
      ResultsOfMeaning(ws, envs, saved, n - 1, r);
    }
  }

  lemma SavedInLedger(ws: seq<World>, envs: seq<RunEnv>, n: nat, r: LiquidationResult)
    requires History(ws, envs) && n <= |envs| && r in ResultsOf(ws, envs, true, n)
    ensures r in ws[n].done
  {
    LedgerSplits(ws, envs, n);
    assert r in multiset(ws[n].done);
  }

  /** In any history, the saved runs have liquidated exactly the transfers in the blocks they have scanned. */
  lemma SavedLiquidatedIff(ws: seq<World>, envs: seq<RunEnv>, canon: Chain -> Contents, origin: string -> Origin,
        n: nat, c: Chain, a: string, b: u64, t: Transfer)
    requires History(ws, envs) && n <= |envs| && forall i :: 0 <= i < n ==> SeesFinalBlocks(canon, envs[i])
    requires Origins(canon, origin) && IsTransfer(canon, c, a, b, t)
    ensures InLedger(ResultsOf(ws, envs, true, n), c, a, t) <==> SavedScan(ws, envs, n, c, a, b)
  {
    hide RunOnce, SeesFinalBlocks, Results, Leads, Covers;
    if r :| r in ResultsOf(ws, envs, true, n) && ClaimOfResult(r) == Claim(c, a, t) {
      ResultsOfMeaning(ws, envs, true, n, r);
      var j :| 0 <= j < n && envs[j].fate.Saved? && r in Results(ws[j], envs[j]);
      OriginsAreHomes(canon, origin);
      LiquidatedMeansTaken(ws[j], envs[j], canon, HomeIn(origin), c, a, b, t);
    }
    if SavedScan(ws, envs, n, c, a, b) {
      SavedScanIsLiquidated(ws, envs, canon, n, c, a, b, t);
      var r :| r in ResultsOf(ws, envs, true, n) && r.txHash == t.txHash;
      SavedInLedger(ws, envs, n, r);
      LedgerAlwaysSound(ws, envs, canon, n);
      assert Genuine(canon, r.payment.chain, r.payment.address, AsTransfer(r));
    }
  }

  /**
   * With one non-dust transfer per transaction no transfer is lost: over any history of failures, kills
   * and failed saves, each one in a block that the frontier has passed while its address was watched
   * has a liquidation of its own, for its address and its amount.
   */
  lemma NoTransferLost(ws: seq<World>, envs: seq<RunEnv>, canon: Chain -> Contents, origin: string -> Origin,
        k: nat, n: nat, c: Chain, a: string, b: u64, t: Transfer)
    requires History(ws, envs) && k <= n <= |envs| && forall i :: 0 <= i < n ==> SeesFinalBlocks(canon, envs[i])
    requires forall i :: k <= i < n ==> Watches(envs[i], c, a, b)
    requires Origins(canon, origin) && IsTransfer(canon, c, a, b, t) && PassedSince(ws, k, n, c, b)
    ensures InLedger(ws[n].done, c, a, t)
  {
    PassedMeansScanned(ws, envs, c, a, k, n, b);
    SavedLiquidatedIff(ws, envs, canon, origin, n, c, a, b, t);
    var r :| r in ResultsOf(ws, envs, true, n) && ClaimOfResult(r) == Claim(c, a, t);
    SavedInLedger(ws, envs, n, r);
  }

  /**
   * An address that is added before run k: of its transfers that are behind the frontier now, exactly
   * those are ever liquidated that were not behind it then. There is no frontier of its own for it.
   */
  lemma AddedAddressIff(ws: seq<World>, envs: seq<RunEnv>, canon: Chain -> Contents, origin: string -> Origin,
        k: nat, n: nat, c: Chain, a: string, b: u64, t: Transfer)
    requires History(ws, envs) && k <= n <= |envs| && forall i :: 0 <= i < n ==> SeesFinalBlocks(canon, envs[i])
    requires forall i :: 0 <= i < k ==> !Monitors(envs[i].cfg, a)
    requires (forall i :: k <= i < n ==> Watches(envs[i], c, a, b)) && FloorsNeverFall(envs, c)
    requires Origins(canon, origin) && IsTransfer(canon, c, a, b, t)
    requires c in ws[n].disk.lastSeen && b < ws[n].disk.lastSeen[c].block
    ensures InLedger(ws[n].done, c, a, t) <==> (c in ws[k].disk.lastSeen ==> ws[k].disk.lastSeen[c].block <= b)
  {
    if c in ws[k].disk.lastSeen ==> ws[k].disk.lastSeen[c].block <= b {
      NoTransferLost(ws, envs, canon, origin, k, n, c, a, b, t);
    } else if InLedger(ws[n].done, c, a, t) {
      OriginsAreHomes(canon, origin);
      LiquidatedItselfIff(ws, envs, canon, HomeIn(origin), n, c, a, b, t);
      hide SeesFinalBlocks, RunOnce, FloorsNeverFall, Leads;
      var j :| 0 <= j < n && Takes(ws[j], envs[j], canon, c, a, b, t);
      assert Monitors(envs[j].cfg, a);
      FrontierNeverFalls(ws, envs, c, k, j);
    }
  }

  // ---------------------------------------------------------------------------
  // A transfer repeated within its transaction
  // ---------------------------------------------------------------------------

  /**
   * However often a transaction makes a transfer, of the same amount or not, to one address: the saved
   * runs of a history together liquidate one of them at most.
   */
  lemma RepeatedTransferLiquidatedOnce(ws: seq<World>, envs: seq<RunEnv>, canon: Chain -> Contents,
        home: string -> Home, mayForget: bool, n: nat, key: DepositKey)
    requires History(ws, envs) && n <= |envs| && CarefulWhenSaved(ws, envs, canon, home, mayForget, n)
    ensures multiset(Map(KeyOfResult, ResultsOf(ws, envs, true, n)))[key] <= 1
  {
    var rs := ResultsOf(ws, envs, true, n);
    SavedNeverRepeated(ws, envs, canon, home, mayForget, n);
    DistinctCount((k: DepositKey) => k, Map(KeyOfResult, rs), key);
  }
}
