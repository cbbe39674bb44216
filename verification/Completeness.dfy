/**
 * No deposit is lost, transaction by transaction: behind a recorded frontier every transaction with a
 * non-dust transfer has been liquidated, whatever failed on the way. TransferLedger says what that
 * means for the single transfer.
 */
module Completeness {
  import opened Types
  import opened Seqs
  import opened Explorer
  import opened ChainResults
  import opened Discovery
  import opened Orchestrator
  import opened Runs

  /**
   * Blocks that are final at a run's height show that run what `canon` says. Blocks above may show
   * anything, and something else in every run.
   */
  ghost predicate SeesFinalBlocks(canon: Chain -> Contents, e: RunEnv) {
    forall c: Chain, a: string, b: u64 ::
      e.views(c).height.Some? && b + e.cfg.ConfirmationsFor(c) <= e.views(c).height.value
      ==> e.views(c).contents(a, b) == canon(c)(a, b)
  }

  ghost predicate Monitors(cfg: Config, a: string) {
    exists i :: 0 <= i < |cfg.addresses| && cfg.addresses[i].address == a
  }

  /** A run that watches address a, on a chain whose configured start is no later than s. */
  ghost predicate Watches(e: RunEnv, c: Chain, a: string, s: u64) {
    Monitors(e.cfg, a) && (c in e.cfg.startBlocks ==> e.cfg.startBlocks[c] <= s)
  }

  /** A liquidation of transaction h has finished, with whatever outcome: Initiated or Failed. */
  ghost predicate Liquidated(w: World, h: string) {
    exists r :: r in w.done && r.txHash == h
  }

  /** Block b counts as passed: it is behind the frontier, or at it when the frontier itself was final. */
  predicate Passed(w: World, c: Chain, b: u64) {
    && c in w.disk.lastSeen
    && (b < w.disk.lastSeen[c].block || (b == w.disk.lastSeen[c].block && c in w.deep))
  }

  /** Every transaction with a non-dust transfer to a, from block s on and already passed, has been liquidated. */
  ghost predicate NothingLost(w: World, canon: Chain -> Contents, c: Chain, a: string, s: u64) {
    forall b: u64, t ::
      s <= b && Passed(w, c, b) && t in canon(c)(a, b) && t.amount >= USDC_DUST_THRESHOLD ==> Liquidated(w, t.txHash)
  }

  /** The dedup set on disk holds only hashes that were liquidated. */
  ghost predicate DedupHonest(w: World) {
    forall h :: h in w.disk.processed ==> Liquidated(w, h)
  }

  lemma LiquidatedStays(w: World, e: RunEnv, h: string)
    ensures Liquidated(RunOnce(w, e), h) <==> Liquidated(w, h) || exists r :: r in Results(w, e) && r.txHash == h
  {
    var after := RunOnce(w, e);
    if r :| r in w.done && r.txHash == h {
      assert r in after.done;
    }
    if r :| r in Results(w, e) && r.txHash == h {
      assert r in after.done;
    }
  }

  lemma {:induction false} TotalProcessed(rs: seq<ChainResult>, h: string)
    ensures h in Total(rs).processed <==> exists i :: 0 <= i < |rs| && h in rs[i].processed
  {
    if rs != [] {
      TotalProcessed(rs[..|rs| - 1], h);
    }
  }

  lemma ScanHashes(cfg: Config, st: State, c: Chain, ac: AddressConfig, since: u64, current: Height,
        contents: Contents, scan: ScanEnv, h: string)
    ensures var out := ScanSpec(cfg, st, c, ac, since, current, contents, scan);
            h in out.result.processed <==> exists d :: d in out.sends && d.txHash == h
  {
    MapIn(HashOf, ScanSpec(cfg, st, c, ac, since, current, contents, scan).sends, h);
  }

  /** The hashes a chain reports as processed are those its scans sent. */
  lemma ChainHashes(cfg: Config, st: State, c: Chain, view: ChainView, h: string)
    ensures var out := RunChain(cfg, st, c, view);
            h in out.result.processed
            <==> exists i, d :: 0 <= i < |out.scans| && d in out.scans[i].sends && d.txHash == h
  {
    var out := RunChain(cfg, st, c, view);
    TotalProcessed(Map(ResultOf, out.scans), h);
    forall i | 0 <= i < |out.scans|
      ensures h in out.scans[i].result.processed <==> exists d :: d in out.scans[i].sends && d.txHash == h
    {
      ScanHashes(cfg, st, c, cfg.addresses[i], SinceBlock(cfg, st, c).value, view.height.value, view.contents,
          view.scans(i), h);
    }
    if i :| 0 <= i < |out.scans| && h in Map(ResultOf, out.scans)[i].processed {
      var d :| d in out.scans[i].sends && d.txHash == h;
    }
    if i, d :| 0 <= i < |out.scans| && d in out.scans[i].sends && d.txHash == h {
      assert h in Map(ResultOf, out.scans)[i].processed;
    }
  }

  /** After a completed pass the dedup set has grown by exactly the hashes sent. */
  lemma DedupAfterPass(w: World, e: RunEnv, h: string)
    requires PipeAfter(w, e).exited
    ensures h in Merged(w, e).processed <==> h in w.disk.processed || exists d :: d in Sends(w, e) && d.txHash == h
  {
    var outs := Discover(e.cfg, w.disk, e.views);
    MergedHashes(w.disk, outs, e.views, |outs|, h);
    MergedResultHash(MergeDiscovery(w.disk, outs, e.views, |outs|), Results(w, e), h);
    ResultHashes(w, e, h);
    forall k | 0 <= k < |outs| && h in outs[k].result.processed
      ensures exists d :: d in Sends(w, e) && d.txHash == h
    {
      var c := ALL_CHAINS[k];
      ChainHashes(e.cfg, w.disk, c, e.views(c), h);
      var i, d :| 0 <= i < |outs[k].scans| && d in outs[k].scans[i].sends && d.txHash == h;
      assert SentBy(w, e, c, i, d);
      SendsMeaning(w, e, d);
    }
    if d :| d in Sends(w, e) && d.txHash == h {
      var r :| r in Results(w, e) && r.txHash == h;
      var i :| 0 <= i < |Results(w, e)| && Results(w, e)[i] == r;
    }
  }

  lemma DedupStaysHonest(w: World, e: RunEnv)
    requires DedupHonest(w) && Completes(w, e)
    ensures DedupHonest(RunOnce(w, e))
  {
    forall h | h in RunOnce(w, e).disk.processed
      ensures Liquidated(RunOnce(w, e), h)
    {
      LiquidatedStays(w, e, h);
      if e.fate.Saved? {
        DedupAfterPass(w, e, h);
        ResultHashes(w, e, h);
      }
    }
  }

  /** The stored frontier of a chain changes exactly when a saved run recorded one. */
  lemma FrontierAfter(w: World, e: RunEnv, c: Chain)
    ensures var before, after := w.disk.lastSeen, RunOnce(w, e).disk.lastSeen;
            if e.fate.Saved? && Recorded(w, e, c).Some?
            then c in after && after[c] == LastSeenBlock(Recorded(w, e, c).value, e.views(c).mergedAt)
            else (c in after <==> c in before) && (c in after ==> after[c] == before[c])
  {
    var outs := Discover(e.cfg, w.disk, e.views);
    MergedFrontier(w.disk, outs, e.views, |outs|, c);
    MergedResultHash(MergeDiscovery(w.disk, outs, e.views, |outs|), Results(w, e), "");
  }

  /** A transfer in a block that a completed run passes for the first time is in its dedup set or in its sends. */
  lemma PassedMeansSent(w: World, e: RunEnv, canon: Chain -> Contents, c: Chain, a: string, b: u64, t: Transfer)
    requires SeesFinalBlocks(canon, e) && Monitors(e.cfg, a)
    requires Recorded(w, e, c).Some? && SinceBlock(e.cfg, w.disk, c).value <= b <= Recorded(w, e, c).value
    requires b + e.cfg.ConfirmationsFor(c) <= e.views(c).height.value
    requires t in canon(c)(a, b) && t.amount >= USDC_DUST_THRESHOLD
    requires t.txHash !in w.disk.processed
    ensures exists d :: d in Sends(w, e) && d.txHash == t.txHash
  {
    var view, cfg := e.views(c), e.cfg;
    RecordedMeaning(cfg, w.disk, c, view, Recorded(w, e, c).value);
    var since := SinceBlock(cfg, w.disk, c).value;
    var i :| 0 <= i < |cfg.addresses| && cfg.addresses[i].address == a;
    SentIff(cfg, w.disk, c, cfg.addresses[i], since, view.height.value, view.contents, view.scans(i), t.txHash);
    assert FinalTransfer(view.contents, a, b, t, view.height.value, cfg.ConfirmationsFor(c));
    var out := RunChain(cfg, w.disk, c, view);
    var d :| d in out.scans[i].sends && d.txHash == t.txHash;
    assert SentBy(w, e, c, i, d);
    SendsMeaning(w, e, d);
  }

  lemma RunLosesNothing(w: World, e: RunEnv, canon: Chain -> Contents, c: Chain, a: string, s: u64)
    requires NothingLost(w, canon, c, a, s) && DedupHonest(w) && Completes(w, e)
    requires SeesFinalBlocks(canon, e) && Watches(e, c, a, s)
    ensures NothingLost(RunOnce(w, e), canon, c, a, s)
  {
    var after := RunOnce(w, e);
    forall b: u64, t | s <= b && Passed(after, c, b) && t in canon(c)(a, b) && t.amount >= USDC_DUST_THRESHOLD
      ensures Liquidated(after, t.txHash)
    {
      LiquidatedStays(w, e, t.txHash);
      FrontierAfter(w, e, c);
      if !Liquidated(w, t.txHash) && e.fate.Saved? && Recorded(w, e, c).Some? {
        RecordedMeaning(e.cfg, w.disk, c, e.views(c), Recorded(w, e, c).value);
        PassedMeansSent(w, e, canon, c, a, b, t);
        ResultHashes(w, e, t.txHash);
      }
    }
  }

  /** Every hash in a dedup set ever stored has been liquidated. */
  lemma {:induction false} DedupAlwaysHonest(ws: seq<World>, envs: seq<RunEnv>, n: nat)
    requires History(ws, envs) && n <= |envs|
    ensures DedupHonest(ws[n])
  {
    hide RunOnce, Completes;
    if n > 0 {
      DedupAlwaysHonest(ws, envs, n - 1);
      assert IsRun(ws, envs, n - 1);
      DedupStaysHonest(ws[n - 1], envs[n - 1]);
    }
  }

  lemma {:induction false} LiquidatedForGood(ws: seq<World>, envs: seq<RunEnv>, h: string, i: nat, n: nat)
    requires History(ws, envs) && i <= n <= |envs| && Liquidated(ws[i], h)
    ensures Liquidated(ws[n], h)
  {
    hide RunOnce, Completes;
    if i < n {
      LiquidatedForGood(ws, envs, h, i, n - 1);
      assert IsRun(ws, envs, n - 1);
      LiquidatedStays(ws[n - 1], envs[n - 1], h);
    }
  }

  /** Runs k .. n - 1 watch the address, on a chain whose configured start is no later than s. */
  ghost predicate WatchedFrom(envs: seq<RunEnv>, canon: Chain -> Contents, c: Chain, a: string, s: u64, k: nat, n: nat)
    requires n <= |envs|
  {
    forall i :: k <= i < n ==> SeesFinalBlocks(canon, envs[i]) && Watches(envs[i], c, a, s)
  }

  /**
   * Over any sequence of runs - heights that fail or fall, scans that fail at once or half-way,
   * confirmation depths that change, saves that fail, runs that are killed - every transaction with a
   * non-dust transfer to a watched address in a block from s up to the stored frontier has been
   * liquidated. The address may be added before any run k, if block s has not been passed by then; from
   * the first run on that is so. The transfer itself has been if its transaction makes no other
   * (NoTransferLost).
   */
  lemma {:induction false} NoDepositLost(ws: seq<World>, envs: seq<RunEnv>, canon: Chain -> Contents, c: Chain,
        a: string, s: u64, k: nat, n: nat)
    requires History(ws, envs) && k <= n <= |envs| && WatchedFrom(envs, canon, c, a, s, k, n)
    requires k > 0 ==> !Passed(ws[k], c, s)
    ensures NothingLost(ws[n], canon, c, a, s)
  {
    hide RunOnce, Completes;
    if n > k {
      NoDepositLost(ws, envs, canon, c, a, s, k, n - 1);
      DedupAlwaysHonest(ws, envs, n - 1);
      assert IsRun(ws, envs, n - 1);
      RunLosesNothing(ws[n - 1], envs[n - 1], canon, c, a, s);
    }
  }

  // ---------------------------------------------------------------------------
  // Frontier bounds
  // ---------------------------------------------------------------------------

  /** One of the first n runs learnt the height of chain c and had its floor at or above m. */
  ghost predicate FloorReached(envs: seq<RunEnv>, n: nat, c: Chain, m: u64)
    requires n <= |envs|
  {
    exists j :: 0 <= j < n && envs[j].views(c).height.Some? && m <= Floor(envs[j], c)
  }

  /** Every stored frontier is at most the confirmation floor of some earlier run. */
  lemma {:induction false} FrontierBelowSomeFloor(ws: seq<World>, envs: seq<RunEnv>, c: Chain, n: nat)
    requires History(ws, envs) && n <= |envs|
    ensures c in ws[n].disk.lastSeen ==> FloorReached(envs, n, c, ws[n].disk.lastSeen[c].block)
  {
    hide RunOnce, Completes;
    if n > 0 {
      var w, e := ws[n - 1], envs[n - 1];
      FrontierBelowSomeFloor(ws, envs, c, n - 1);
      assert IsRun(ws, envs, n - 1);
      FrontierAfter(w, e, c);
      if e.fate.Saved? && Recorded(w, e, c).Some? {
        RecordedMeaning(e.cfg, w.disk, c, e.views(c), Recorded(w, e, c).value);
      }
    }
  }

  /** Confirmation floors never fall from one run to a later one: heights do not fall and depths do not grow. */
  ghost predicate FloorsNeverFall(envs: seq<RunEnv>, c: Chain) {
    forall i, j :: 0 <= i < j < |envs| && envs[i].views(c).height.Some? && envs[j].views(c).height.Some?
      ==> Floor(envs[i], c) <= Floor(envs[j], c)
  }

  lemma RunKeepsFrontier(w: World, e: RunEnv, c: Chain)
    requires c in w.disk.lastSeen
    requires e.views(c).height.Some? ==> w.disk.lastSeen[c].block <= Floor(e, c)
    ensures c in RunOnce(w, e).disk.lastSeen
    ensures w.disk.lastSeen[c].block <= RunOnce(w, e).disk.lastSeen[c].block
  {
    FrontierAfter(w, e, c);
    if Recorded(w, e, c).Some? {
      RecordedMeaning(e.cfg, w.disk, c, e.views(c), Recorded(w, e, c).value);
      FrontierKeptIff(e.cfg, w.disk, c, e.views(c), Recorded(w, e, c).value);
    }
  }

  /** When floors do not fall, the floor of a run is not below the frontier it finds. */
  lemma FloorAboveFrontier(ws: seq<World>, envs: seq<RunEnv>, c: Chain, n: nat)
    requires History(ws, envs) && n < |envs| && FloorsNeverFall(envs, c)
    requires c in ws[n].disk.lastSeen && envs[n].views(c).height.Some?
    ensures ws[n].disk.lastSeen[c].block <= Floor(envs[n], c)
  {
    FrontierBelowSomeFloor(ws, envs, c, n);
    var j :| 0 <= j < n && envs[j].views(c).height.Some? && ws[n].disk.lastSeen[c].block <= Floor(envs[j], c);
  }

  /** A stored frontier never falls as long as confirmation floors do not. */
  lemma {:induction false} FrontierNeverFalls(ws: seq<World>, envs: seq<RunEnv>, c: Chain, i: nat, n: nat)
    requires History(ws, envs) && i <= n <= |envs|
    requires FloorsNeverFall(envs, c) && c in ws[i].disk.lastSeen
    ensures c in ws[n].disk.lastSeen && ws[i].disk.lastSeen[c].block <= ws[n].disk.lastSeen[c].block
  {
    hide RunOnce, Completes, FloorsNeverFall;
    if i < n {
      FrontierNeverFalls(ws, envs, c, i, n - 1);
      assert IsRun(ws, envs, n - 1);
      if envs[n - 1].views(c).height.Some? {
        FloorAboveFrontier(ws, envs, c, n - 1);
      }
      RunKeepsFrontier(ws[n - 1], envs[n - 1], c);
    }
  }

  // ---------------------------------------------------------------------------
  // Catching up
  // ---------------------------------------------------------------------------

  /** A saved run that learnt the height and whose first request succeeded for every address. */
  ghost predicate Healthy(w: World, e: RunEnv, c: Chain) {
    && e.fate.Saved?
    && e.views(c).height.Some?
    && SinceBlock(e.cfg, w.disk, c).Some?
    && e.cfg.addresses != []
    && forall i :: 0 <= i < |e.cfg.addresses| ==>
         !e.views(c).scans(i).down(NextRequest(SinceBlock(e.cfg, w.disk, c).value, e.views(c).height.value,
             ChunkSize(c)))
  }

  /** A healthy run moves the frontier on by a chunk less one block, or to its floor. */
  lemma HealthyRunAdvances(w: World, e: RunEnv, c: Chain)
    requires Healthy(w, e, c)
    ensures var after := RunOnce(w, e).disk.lastSeen;
            c in after && after[c].block >= Min(SinceBlock(e.cfg, w.disk, c).value + ChunkSize(c) - 1, Floor(e, c))
  {
    hide RunOnce, ScanSpec;
    var view, since := e.views(c), SinceBlock(e.cfg, w.disk, c).value;
    var scans := RunChain(e.cfg, w.disk, c, view).scans;
    FrontierAfter(w, e, c);
    TotalFrontier(Map(ResultOf, scans));
    forall i | 0 <= i < |scans|
      ensures Map(ResultOf, scans)[i].frontier.Some?
      ensures Min(since + ChunkSize(c) - 1, Floor(e, c)) <= Map(ResultOf, scans)[i].frontier.value < U64_MAX
    {
      HealthyScan(e.cfg, w.disk, c, e.cfg.addresses[i], since, view.height.value, view.contents, view.scans(i));
    }
  }

  lemma HealthyScan(cfg: Config, st: State, c: Chain, ac: AddressConfig, since: u64, current: Height,
        contents: Contents, scan: ScanEnv)
    requires !scan.down(NextRequest(since, current, ChunkSize(c)))
    ensures var frontier := ScanSpec(cfg, st, c, ac, since, current, contents, scan).result.frontier;
            frontier.Some? && Min(since + ChunkSize(c) - 1, SatSub(current,
                cfg.ConfirmationsFor(c))) <= frontier.value < U64_MAX
  {
    FetchMeaning(contents, ac.address, scan, since, current, ChunkSize(c));
  }

  lemma HealthyRunStepsUp(w: World, e: RunEnv, c: Chain, start: nat, n: nat, first: nat)
    requires Healthy(w, e, c) && first <= Floor(e, c)
    requires SinceBlock(e.cfg, w.disk, c).value >= Min(start + n * (ChunkSize(c) - 1), first)
    ensures c in RunOnce(w, e).disk.lastSeen
    ensures RunOnce(w, e).disk.lastSeen[c].block >= Min(start + (n + 1) * (ChunkSize(c) - 1), first)
  {
    HealthyRunAdvances(w, e, c);
    StepUp(start, n, ChunkSize(c) - 1, SinceBlock(e.cfg, w.disk, c).value, RunOnce(w, e).disk.lastSeen[c].block,
        first, Floor(e, c));
  }

  lemma StepUp(start: nat, n: nat, step: nat, at: nat, next: nat, first: nat, floor: nat)
    requires at >= Min(start + n * step, first) && next >= Min(at + step, floor) && first <= floor
    ensures next >= Min(start + (n + 1) * step, first)
  {
    assert (n + 1) * step == n * step + step;
  }

  /**
   * From any run m on: if the first request of every address succeeds in each of n runs and floors do not
   * fall, the frontier has moved n * (chunk - 1) blocks on from where run m restarted, or to run m's floor.
   */
  lemma {:induction false} CatchesUp(ws: seq<World>, envs: seq<RunEnv>, c: Chain, m: nat, n: nat)
    requires History(ws, envs) && 0 < n && m + n <= |envs| && FloorsNeverFall(envs, c)
    requires forall i :: m <= i < m + n ==> Healthy(ws[i], envs[i], c)
    ensures SinceBlock(envs[m].cfg, ws[m].disk, c).Some? && envs[m].views(c).height.Some?
    ensures c in ws[m + n].disk.lastSeen
    ensures ws[m + n].disk.lastSeen[c].block
         >= Min(SinceBlock(envs[m].cfg, ws[m].disk, c).value + n * (ChunkSize(c) - 1), Floor(envs[m], c))
  {
    hide RunOnce, Completes;
    var last := m + n - 1;
    assert Healthy(ws[m], envs[m], c) && Healthy(ws[last], envs[last], c);
    if n > 1 {
      CatchesUp(ws, envs, c, m, n - 1);
    }
    assert IsRun(ws, envs, last);
    HealthyRunStepsUp(ws[last], envs[last], c, SinceBlock(envs[m].cfg, ws[m].disk, c).value, n - 1,
        Floor(envs[m], c));
  }
}
