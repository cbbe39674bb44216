/** No deposit is liquidated twice, when runs save and pruning keeps behind the frontier - and when it is. */
module AtMostOnce {
  import opened Types
  import opened Seqs
  import opened Explorer
  import opened Discovery
  import opened Persistence
  import opened Runs
  import opened Completeness
  import opened Coverage

  datatype DepositKey = DepositKey(chain: Chain, address: string, txHash: string)

  function KeyOfDeposit(d: EligibleDeposit): DepositKey {
    DepositKey(d.chain, d.address, d.txHash)
  }

  function KeyOfResult(r: LiquidationResult): DepositKey {
    DepositKey(r.payment.chain, r.payment.address, r.txHash)
  }

  function AddressOf(ac: AddressConfig): string {
    ac.address
  }

  // ---------------------------------------------------------------------------
  // Within one run
  // ---------------------------------------------------------------------------

  function ChainSends(o: ChainOutcome): seq<EligibleDeposit> {
    Concat(Map(SendsOf, o.scans))
  }

  lemma {:induction false} AllSendsByChain(outs: seq<ChainOutcome>)
    ensures AllSends(outs) == Concat(Map(ChainSends, outs))
  {
    if outs != [] {
      AllSendsByChain(outs[1..]);
      ConcatAppend(Map(SendsOf, outs[0].scans), SendLists(outs[1..]));
      assert Map(ChainSends, outs)[1..] == Map(ChainSends, outs[1..]);
    }
  }

  lemma ScanSends(cfg: Config, st: State, c: Chain, view: ChainView, i: nat)
    requires i < |RunChain(cfg, st, c, view).scans|
    ensures i < |cfg.addresses|
    ensures DistinctBy(KeyOfDeposit, RunChain(cfg, st, c, view).scans[i].sends)
    ensures forall d :: d in RunChain(cfg, st, c, view).scans[i].sends
              ==> d.chain == c && d.address == cfg.addresses[i].address
  {
    var ac, since, current := cfg.addresses[i], SinceBlock(cfg, st, c).value, view.height.value;
    var out := ScanSpec(cfg, st, c, ac, since, current, view.contents, view.scans(i));
    forall d | d in out.sends
      ensures d.chain == c && d.address == ac.address
    {
      var b := SentComesFromChain(cfg, st, c, ac, since, current, view.contents, view.scans(i), d);
    }
    var fetched := Fetch(view.contents, ac.address, view.scans(i), since, current, ChunkSize(c));
    if fetched.Ok? {
      var rs := fetched.value.receives;
      SelectDistinct(ac, c, Filter(st.processed, current, cfg.ConfirmationsFor(c)), rs, view.scans(i).clock, |rs|);
    }
  }

  lemma ChainSendsDistinct(cfg: Config, st: State, c: Chain, view: ChainView)
    requires DistinctBy(AddressOf, cfg.addresses)
    ensures DistinctBy(KeyOfDeposit, ChainSends(RunChain(cfg, st, c, view)))
    ensures forall d :: d in ChainSends(RunChain(cfg, st, c, view)) ==> d.chain == c
  {
    var scans := RunChain(cfg, st, c, view).scans;
    var lists := Map(SendsOf, scans);
    forall i | 0 <= i < |scans|
      ensures DistinctBy(KeyOfDeposit, lists[i])
      ensures forall d: EligibleDeposit :: d in lists[i] ==> d.chain == c && d.address == AddressOf(cfg.addresses[i])
    {
      ScanSends(cfg, st, c, view, i);
    }
    ConcatDistinct(KeyOfDeposit, lists);
    forall d | d in Concat(lists)
      ensures d.chain == c
    {
      ConcatIn(lists, d);
    }
  }

  /** One run sends no (chain, address, hash) twice when no address is configured twice. */
  lemma SendsDistinct(w: World, e: RunEnv)
    requires DistinctBy(AddressOf, e.cfg.addresses)
    ensures DistinctBy(KeyOfDeposit, Sends(w, e))
  {
    hide RunChain;
    var outs := Discover(e.cfg, w.disk, e.views);
    forall k | 0 <= k < |outs|
      ensures DistinctBy(KeyOfDeposit, Map(ChainSends, outs)[k])
      ensures forall d: EligibleDeposit :: d in Map(ChainSends, outs)[k] ==> d.chain == ALL_CHAINS[k]
    {
      ChainSendsDistinct(e.cfg, w.disk, ALL_CHAINS[k], e.views(ALL_CHAINS[k]));
    }
    AllSendsByChain(outs);
    ConcatDistinct(KeyOfDeposit, Map(ChainSends, outs));
  }

  lemma ResultsDistinct(w: World, e: RunEnv)
    requires DistinctBy(AddressOf, e.cfg.addresses) && PipeAfter(w, e).exited
    ensures DistinctBy(KeyOfResult, Results(w, e))
  {
    SendsDistinct(w, e);
    ResultsReflectSends(w, e, KeyOfResult, KeyOfDeposit);
    var keys := Map(KeyOfResult, Results(w, e));
    DistinctPerm((k: DepositKey) => k, Map(KeyOfDeposit, Sends(w, e)), keys);
    forall i, j | 0 <= i < j < |keys|
      ensures KeyOfResult(Results(w, e)[i]) != KeyOfResult(Results(w, e)[j])
    {
      assert keys[i] != keys[j];
    }
  }

  // ---------------------------------------------------------------------------
  // Over many runs
  // ---------------------------------------------------------------------------

  /** Where a transaction is: one with a non-dust transfer is included in one block of one chain. */
  datatype Home = Home(chain: Chain, block: u64)

  ghost predicate Homes(canon: Chain -> Contents, home: string -> Home) {
    forall c: Chain, a: string, b: u64, t ::
      t in canon(c)(a, b) && t.amount >= USDC_DUST_THRESHOLD ==> home(t.txHash) == Home(c, b)
  }

  /** The block is strictly behind its chain's stored frontier, so no later scan starts at or before it. */
  predicate Behind(w: World, home: Home) {
    home.chain in w.disk.lastSeen && home.block < w.disk.lastSeen[home.chain].block
  }

  function PrunedHashes(w: World, e: RunEnv): set<string> {
    StaleHashes(Merged(w, e), e.prunedAt - RETENTION)
  }

  lemma SentNotInDedup(w: World, e: RunEnv, d: EligibleDeposit)
    requires d in Sends(w, e)
    ensures d.txHash !in w.disk.processed
  {
    SendsMeaning(w, e, d);
    var c, i :| SentBy(w, e, c, i, d);
    var view := e.views(c);
    var b := SentComesFromChain(e.cfg, w.disk, c, e.cfg.addresses[i], SinceBlock(e.cfg, w.disk, c).value,
                                view.height.value, view.contents, view.scans(i), d);
  }

  /** Everything the run sends is new to the dedup set and not behind the block the scans restart from. */
  lemma SentIsNew(w: World, e: RunEnv, canon: Chain -> Contents, home: string -> Home, h: string)
    requires SeesFinalBlocks(canon, e) && Homes(canon, home)
    requires exists d :: d in Sends(w, e) && d.txHash == h
    ensures h !in w.disk.processed && !Behind(w, home(h))
    ensures SinceBlock(e.cfg, w.disk, home(h).chain).Some?
    ensures SinceBlock(e.cfg, w.disk, home(h).chain).value <= home(h).block
  {
    var d :| d in Sends(w, e) && d.txHash == h;
    SendsMeaning(w, e, d);
    var c, i :| SentBy(w, e, c, i, d);
    var view := e.views(c);
    var b := SentComesFromChain(e.cfg, w.disk, c, e.cfg.addresses[i], SinceBlock(e.cfg, w.disk, c).value,
                                view.height.value, view.contents, view.scans(i), d);
    assert Transfer(d.txHash, d.amount) in canon(c)(e.cfg.addresses[i].address, b);
  }

  /** A liquidated hash is in the dedup set or, if pruned from it, behind the frontier. */
  ghost predicate Remembered(w: World, rs: seq<LiquidationResult>, home: string -> Home, mayForget: bool) {
    forall r :: r in rs ==> r.txHash in w.disk.processed || (mayForget && Behind(w, home(r.txHash)))
  }

  /**
   * A saved run with distinct addresses. It prunes nothing; or (mayForget) final blocks stay, what it
   * prunes is behind the frontier, and no floor is below a stored frontier.
   */
  ghost predicate SafeRun(w: World, e: RunEnv, canon: Chain -> Contents, home: string -> Home, mayForget: bool) {
    && e.fate.Saved?
    && DistinctBy(AddressOf, e.cfg.addresses)
    && if mayForget then
         && SeesFinalBlocks(canon, e)
         && Homes(canon, home)
         && (forall h :: h in PrunedHashes(w, e) ==> Behind(RunOnce(w, e), home(h)))
         && (forall c :: c in w.disk.lastSeen && e.views(c).height.Some? ==> w.disk.lastSeen[c].block <= Floor(e, c))
       else PrunedHashes(w, e) == {}
  }

  lemma AfterSavedRun(w: World, e: RunEnv, h: string)
    requires e.fate.Saved?
    ensures RunOnce(w, e).done == w.done + Results(w, e)
    ensures h in RunOnce(w, e).disk.processed <==> h in Merged(w, e).processed && h !in PrunedHashes(w, e)
  {
  }

  lemma RunKeepsRemembered(w: World, e: RunEnv, rs: seq<LiquidationResult>, canon: Chain -> Contents,
        home: string -> Home, mayForget: bool)
    requires Completes(w, e) && SafeRun(w, e, canon, home, mayForget) && Remembered(w, rs, home, mayForget)
    ensures Remembered(RunOnce(w, e), rs + Results(w, e), home, mayForget)
  {
    hide RunOnce, Merged, PrunedHashes;
    var after := RunOnce(w, e);
    forall r | r in rs + Results(w, e)
      ensures r.txHash in after.disk.processed || (mayForget && Behind(after, home(r.txHash)))
    {
      AfterSavedRun(w, e, r.txHash);
      DedupAfterPass(w, e, r.txHash);
      ResultHashes(w, e, r.txHash);
      if r.txHash !in Merged(w, e).processed {
        RunKeepsFrontier(w, e, home(r.txHash).chain);
      }
    }
  }

  /** No run sends what is remembered. */
  lemma RememberedNotSent(w: World, e: RunEnv, rs: seq<LiquidationResult>, canon: Chain -> Contents,
        home: string -> Home, mayForget: bool, d: EligibleDeposit)
    requires Remembered(w, rs, home, mayForget) && d in Sends(w, e)
    requires mayForget ==> SeesFinalBlocks(canon, e) && Homes(canon, home)
    ensures forall r :: r in rs ==> r.txHash != d.txHash
  {
    SentNotInDedup(w, e, d);
    if mayForget {
      SentIsNew(w, e, canon, home, d.txHash);
    }
  }

  lemma RunRepeatsNothing(w: World, e: RunEnv, rs: seq<LiquidationResult>, canon: Chain -> Contents,
        home: string -> Home, mayForget: bool)
    requires Completes(w, e) && SafeRun(w, e, canon, home, mayForget)
    requires Remembered(w, rs, home, mayForget) && DistinctBy(KeyOfResult, rs)
    ensures DistinctBy(KeyOfResult, rs + Results(w, e))
  {
    ResultsDistinct(w, e);
    forall i, j | 0 <= i < |rs| && 0 <= j < |Results(w, e)|
      ensures rs[i].txHash != Results(w, e)[j].txHash
    {
      var r := Results(w, e)[j];
      assert r in Results(w, e);
      ResultHashes(w, e, r.txHash);
      var d :| d in Sends(w, e) && d.txHash == r.txHash;
      RememberedNotSent(w, e, rs, canon, home, mayForget, d);
      assert rs[i] in rs;
    }
  }

  /** SafeRun of run i, but for floors and stored frontiers. */
  ghost predicate Careful(ws: seq<World>, envs: seq<RunEnv>, canon: Chain -> Contents, home: string -> Home,
        mayForget: bool, i: nat)
    requires i < |envs| && |ws| == |envs| + 1
  {
    && envs[i].fate.Saved?
    && DistinctBy(AddressOf, envs[i].cfg.addresses)
    && if mayForget then
         && SeesFinalBlocks(canon, envs[i])
         && (forall h :: h in PrunedHashes(ws[i], envs[i]) ==> Behind(ws[i + 1], home(h)))
       else PrunedHashes(ws[i], envs[i]) == {}
  }

  lemma CarefulIsSafe(ws: seq<World>, envs: seq<RunEnv>, canon: Chain -> Contents, home: string -> Home,
        mayForget: bool, i: nat)
    requires History(ws, envs) && i < |envs| && Careful(ws, envs, canon, home, mayForget, i)
    requires mayForget ==> Homes(canon, home) && forall c :: FloorsNeverFall(envs, c)
    ensures SafeRun(ws[i], envs[i], canon, home, mayForget)
  {
    hide RunOnce, Completes, PrunedHashes;
    assert IsRun(ws, envs, i);
    if mayForget {
      forall c | c in ws[i].disk.lastSeen && envs[i].views(c).height.Some?
        ensures ws[i].disk.lastSeen[c].block <= Floor(envs[i], c)
      {
        FloorAboveFrontier(ws, envs, c, i);
      }
    }
  }

  /** The saved ones among the first n runs are careful; of the others only their floors matter. */
  ghost predicate CarefulWhenSaved(ws: seq<World>, envs: seq<RunEnv>, canon: Chain -> Contents, home: string -> Home,
        mayForget: bool, n: nat)
    requires n <= |envs| && |ws| == |envs| + 1
  {
    && (forall i :: 0 <= i < n && envs[i].fate.Saved? ==> Careful(ws, envs, canon, home, mayForget, i))
    && (mayForget ==> Homes(canon, home) && forall c :: FloorsNeverFall(envs, c))
  }

  lemma UnsavedRunKeepsDisk(w: World, e: RunEnv)
    requires !e.fate.Saved?
    ensures RunOnce(w, e).disk == w.disk
  {
  }

  /**
   * Over any history, with failed saves and kills in it, no (chain, address, hash) is liquidated by two
   * saved runs. Until something is pruned (mayForget false) this needs nothing of the chains, heights or
   * frontiers. After that, final blocks must stay, floors must not fall, and a hash may be pruned only
   * when its block is strictly behind the frontier.
   */
  lemma {:induction false} SavedNeverRepeated(ws: seq<World>, envs: seq<RunEnv>, canon: Chain -> Contents,
        home: string -> Home, mayForget: bool, n: nat)
    requires History(ws, envs) && n <= |envs| && CarefulWhenSaved(ws, envs, canon, home, mayForget, n)
    ensures DistinctBy(KeyOfResult, ResultsOf(ws, envs, true, n))
    ensures Remembered(ws[n], ResultsOf(ws, envs, true, n), home, mayForget)
  {
    hide RunOnce, Completes, SafeRun, Careful, Homes, FloorsNeverFall, Results;
    if n > 0 {
      var w, e, rs := ws[n - 1], envs[n - 1], ResultsOf(ws, envs, true, n - 1);
      SavedNeverRepeated(ws, envs, canon, home, mayForget, n - 1);
      assert IsRun(ws, envs, n - 1);
      if e.fate.Saved? {
        CarefulIsSafe(ws, envs, canon, home, mayForget, n - 1);
        RunRepeatsNothing(w, e, rs, canon, home, mayForget);
        RunKeepsRemembered(w, e, rs, canon, home, mayForget);
      } else {
        UnsavedRunKeepsDisk(w, e);
      }
    }
  }

  /** And no later run, saved or not, sends again what a saved run has liquidated. */
  lemma SavedNeverSentAgain(ws: seq<World>, envs: seq<RunEnv>, canon: Chain -> Contents, home: string -> Home,
        mayForget: bool, n: nat, d: EligibleDeposit)
    requires History(ws, envs) && n < |envs| && CarefulWhenSaved(ws, envs, canon, home, mayForget, n)
    requires mayForget ==> SeesFinalBlocks(canon, envs[n])
    requires d in Sends(ws[n], envs[n])
    ensures forall r :: r in ResultsOf(ws, envs, true, n) ==> r.txHash != d.txHash
  {
    SavedNeverRepeated(ws, envs, canon, home, mayForget, n);
    RememberedNotSent(ws[n], envs[n], ResultsOf(ws, envs, true, n), canon, home, mayForget, d);
  }

  /** So when all runs are saved, nothing is liquidated twice. */
  lemma NothingLiquidatedTwice(ws: seq<World>, envs: seq<RunEnv>, canon: Chain -> Contents, home: string -> Home,
        mayForget: bool, n: nat)
    requires History(ws, envs) && n <= |envs|
    requires forall i :: 0 <= i < n ==> Careful(ws, envs, canon, home, mayForget, i)
    requires mayForget ==> Homes(canon, home) && forall c :: FloorsNeverFall(envs, c)
    ensures DistinctBy(KeyOfResult, ws[n].done) && Remembered(ws[n], ws[n].done, home, mayForget)
  {
    SavedNeverRepeated(ws, envs, canon, home, mayForget, n);
    assert forall i :: 0 <= i < n ==> Careful(ws, envs, canon, home, mayForget, i) ==> envs[i].fate.Saved?;
    AllSavedLedger(ws, envs, n);
  }

  /** A scan that gets to a new hash's final transfer sends the hash. */
  lemma CoveredIsSent(w: World, e: RunEnv, canon: Chain -> Contents, c: Chain, i: int, b: u64, t: Transfer)
    requires SeesFinalBlocks(canon, e) && ScanCovers(w, e, c, i, b)
    requires t in canon(c)(e.cfg.addresses[i].address, b) && t.amount >= USDC_DUST_THRESHOLD
    requires t.txHash !in w.disk.processed
    ensures exists d :: d in Sends(w, e) && d.txHash == t.txHash
  {
    var view, ac, since := e.views(c), e.cfg.addresses[i], SinceBlock(e.cfg, w.disk, c).value;
    assert FinalTransfer(view.contents, ac.address, b, t, view.height.value, e.cfg.ConfirmationsFor(c));
    SentIff(e.cfg, w.disk, c, ac, since, view.height.value, view.contents, view.scans(i), t.txHash);
    var d :| d in RunChain(e.cfg, w.disk, c, view).scans[i].sends && d.txHash == t.txHash;
    assert SentBy(w, e, c, i, d);
    SendsMeaning(w, e, d);
  }

  // ---------------------------------------------------------------------------
  // What the dedup set holds
  // ---------------------------------------------------------------------------

  ghost predicate SendsHash(w: World, e: RunEnv, h: string) {
    exists d :: d in Sends(w, e) && d.txHash == h
  }

  /** The run does not save, or does not prune the hash. */
  predicate KeepsHash(w: World, e: RunEnv, h: string) {
    e.fate.Saved? ==> h !in PrunedHashes(w, e)
  }

  /** Saved run j sent the hash, and no saved run from j on has pruned it. */
  ghost predicate SentAndKept(ws: seq<World>, envs: seq<RunEnv>, n: nat, h: string, j: nat)
    requires j < n <= |envs| && |ws| == |envs| + 1
  {
    && envs[j].fate.Saved? && SendsHash(ws[j], envs[j], h)
    && forall m :: j <= m < n ==> KeepsHash(ws[m], envs[m], h)
  }

  lemma HashAfter(w: World, e: RunEnv, h: string)
    requires Completes(w, e)
    ensures h in RunOnce(w, e).disk.processed
       <==> (h in w.disk.processed || (e.fate.Saved? && SendsHash(w, e, h))) && KeepsHash(w, e, h)
  {
    hide Merged, PrunedHashes, Sends;
    if e.fate.Saved? {
      AfterSavedRun(w, e, h);
      DedupAfterPass(w, e, h);
    } else {
      UnsavedRunKeepsDisk(w, e);
    }
  }

  /**
   * Over any history, with failed saves and kills in it: a hash is in the stored dedup set exactly when
   * a saved run has sent it and no saved run from there on has pruned it.
   */
  lemma {:induction false} InDedupIff(ws: seq<World>, envs: seq<RunEnv>, n: nat, h: string)
    requires History(ws, envs) && n <= |envs|
    ensures h in ws[n].disk.processed <==> exists j: nat :: j < n && SentAndKept(ws, envs, n, h, j)
  {
    hide RunOnce, Completes, SendsHash, KeepsHash;
    if n > 0 {
      var last := n - 1;
      InDedupIff(ws, envs, last, h);
      assert IsRun(ws, envs, last);
      HashAfter(ws[last], envs[last], h);
      if envs[last].fate.Saved? && SendsHash(ws[last], envs[last], h) && KeepsHash(ws[last], envs[last], h) {
        assert SentAndKept(ws, envs, n, h, last);
      }
      if j: nat :| j < last && SentAndKept(ws, envs, last, h, j) {
        assert KeepsHash(ws[last], envs[last], h) ==> SentAndKept(ws, envs, n, h, j);
      }
      if j: nat :| j < n && SentAndKept(ws, envs, n, h, j) {
        assert j < last ==> SentAndKept(ws, envs, last, h, j);
      }
    }
  }

  /** Whatever fails on the way, no later run sends what a saved run has sent, until a saved run prunes it. */
  lemma NotSentWhileKept(ws: seq<World>, envs: seq<RunEnv>, j: nat, n: nat, h: string)
    requires History(ws, envs) && j < n < |envs| && SentAndKept(ws, envs, n, h, j)
    ensures !SendsHash(ws[n], envs[n], h)
  {
    InDedupIff(ws, envs, n, h);
    forall d | d in Sends(ws[n], envs[n])
      ensures d.txHash != h
    {
      SentNotInDedup(ws[n], envs[n], d);
    }
  }

  /**
   * When deposits are sent, in any history: a run whose scan gets to the transfer's block sends its
   * hash exactly when no earlier saved run has sent and kept it.
   */
  lemma SentIffNotKept(ws: seq<World>, envs: seq<RunEnv>, canon: Chain -> Contents, n: nat, c: Chain, i: int, b: u64,
        t: Transfer)
    requires History(ws, envs) && n < |envs| && SeesFinalBlocks(canon, envs[n]) && ScanCovers(ws[n], envs[n], c, i, b)
    requires t in canon(c)(envs[n].cfg.addresses[i].address, b) && t.amount >= USDC_DUST_THRESHOLD
    ensures SendsHash(ws[n], envs[n], t.txHash) <==> !exists j: nat :: j < n && SentAndKept(ws, envs, n, t.txHash, j)
  {
    InDedupIff(ws, envs, n, t.txHash);
    hide SentAndKept, ScanCovers;
    if t.txHash in ws[n].disk.processed {
      forall d | d in Sends(ws[n], envs[n])
        ensures d.txHash != t.txHash
      {
        SentNotInDedup(ws[n], envs[n], d);
      }
    } else {
      CoveredIsSent(ws[n], envs[n], canon, c, i, b, t);
    }
  }

  // ---------------------------------------------------------------------------
  // When deposits are liquidated again
  // ---------------------------------------------------------------------------

  /** The deposit's transfer on chain, and that the scan which sent it covered its block. */
  lemma SentWasCovered(w: World, e: RunEnv, canon: Chain -> Contents, c: Chain, i: int, d: EligibleDeposit)
    returns (b: u64)
    requires SeesFinalBlocks(canon, e) && SentBy(w, e, c, i, d)
    ensures ScanCovers(w, e, c, i, b) && d.address == e.cfg.addresses[i].address && d.txHash !in w.disk.processed
    ensures Transfer(d.txHash, d.amount) in canon(c)(d.address, b) && d.amount >= USDC_DUST_THRESHOLD
  {
    var view := e.views(c);
    b := SentComesFromChain(e.cfg, w.disk, c, e.cfg.addresses[i], SinceBlock(e.cfg, w.disk, c).value,
                            view.height.value, view.contents, view.scans(i), d);
  }

  /**
   * The run directly after one that sent a deposit, if it scans the address without an outage at no smaller
   * height, sends the deposit again exactly when the first did not save - because saving failed or because
   * it was killed. Depth and start block may be lowered in between; unfinal blocks and clocks may show
   * anything. For runs further on see SentIffNotKept.
   */
  lemma SentAgainIffUnsaved(w: World, e: RunEnv, again: RunEnv, canon: Chain -> Contents, c: Chain, i: int, j: nat,
        d: EligibleDeposit)
    requires Completes(w, e) && SeesFinalBlocks(canon, e) && SeesFinalBlocks(canon, again)
    requires SentBy(w, e, c, i, d) && (e.fate.Saved? ==> d.txHash !in PrunedHashes(w, e))
    requires j < |again.cfg.addresses| && again.cfg.addresses[j].address == d.address
    requires again.views(c).height.Some? && forall q :: !again.views(c).scans(j).down(q)
    requires e.views(c).height.value - e.cfg.ConfirmationsFor(c)
          <= again.views(c).height.value - again.cfg.ConfirmationsFor(c)
    requires c !in w.disk.lastSeen ==> c in again.cfg.startBlocks && again.cfg.startBlocks[c] <= e.cfg.startBlocks[c]
    ensures (exists d' :: d' in Sends(RunOnce(w, e), again) && d'.txHash == d.txHash) <==> !e.fate.Saved?
  {
    var after := RunOnce(w, e);
    if e.fate.Saved? {
      SendsMeaning(w, e, d);
      DedupAfterPass(w, e, d.txHash);
      AfterSavedRun(w, e, d.txHash);
      forall d' | d' in Sends(after, again)
        ensures d'.txHash != d.txHash
      {
        SentNotInDedup(after, again, d');
      }
    } else {
      var b := SentWasCovered(w, e, canon, c, i, d);
      CoversWithoutOutage(after, again, c, j, b);
      CoveredIsSent(after, again, canon, c, j, b, Transfer(d.txHash, d.amount));
    }
  }

  /**
   * A hash that is no longer in the dedup set is sent again by the next run without outages exactly
   * when its block is not strictly behind the one the scan restarts from: the stored frontier, or the
   * start block of a chain that has none.
   */
  lemma ForgottenSentAgainIff(w: World, e: RunEnv, canon: Chain -> Contents, home: string -> Home, c: Chain, i: nat,
        b: u64, t: Transfer)
    requires SeesFinalBlocks(canon, e) && Homes(canon, home)
    requires i < |e.cfg.addresses| && forall q :: !e.views(c).scans(i).down(q)
    requires e.views(c).height.Some?
    requires FinalTransfer(canon(c), e.cfg.addresses[i].address, b, t, e.views(c).height.value,
            e.cfg.ConfirmationsFor(c))
    requires t.txHash !in w.disk.processed
    ensures (exists d :: d in Sends(w, e) && d.txHash == t.txHash)
       <==> SinceBlock(e.cfg, w.disk, c).Some? && SinceBlock(e.cfg, w.disk, c).value <= b
  {
    if exists d :: d in Sends(w, e) && d.txHash == t.txHash {
      SentIsNew(w, e, canon, home, t.txHash);
    }
    if SinceBlock(e.cfg, w.disk, c).Some? && SinceBlock(e.cfg, w.disk, c).value <= b {
      CoversWithoutOutage(w, e, c, i, b);
      CoveredIsSent(w, e, canon, c, i, b, t);
    }
  }

  /**
   * What is behind a frontier stays behind it: while floors do not fall, no later run sends it, for
   * any address. An address added to the configuration later is not scanned from the start block.
   */
  lemma BehindForGood(ws: seq<World>, envs: seq<RunEnv>, canon: Chain -> Contents, home: string -> Home, i: nat,
        n: nat, h: string)
    requires History(ws, envs) && i <= n < |envs|
    requires SeesFinalBlocks(canon, envs[n]) && Homes(canon, home) && FloorsNeverFall(envs, home(h).chain)
    requires Behind(ws[i], home(h))
    ensures forall d :: d in Sends(ws[n], envs[n]) ==> d.txHash != h
  {
    hide RunOnce, Completes;
    FrontierNeverFalls(ws, envs, home(h).chain, i, n);
    if exists d :: d in Sends(ws[n], envs[n]) && d.txHash == h {
      SentIsNew(ws[n], envs[n], canon, home, h);
    }
  }

  /**
   * Why addresses must be distinct: an address configured twice has each of its deposits sent once
   * per entry, because the dedup set in use is that of the start of the run.
   */
  lemma AddressTwiceSendsTwice(w: World, e: RunEnv, c: Chain, i: nat, j: nat, d: EligibleDeposit)
    requires SentBy(w, e, c, i, d)
    requires j < |e.cfg.addresses| && e.cfg.addresses[j].address == e.cfg.addresses[i].address
    requires forall q :: !e.views(c).scans(j).down(q)
    ensures exists d' :: SentBy(w, e, c, j, d') && KeyOfDeposit(d') == KeyOfDeposit(d)
  {
    var view, since := e.views(c), SinceBlock(e.cfg, w.disk, c).value;
    var current, a := view.height.value, e.cfg.addresses[i].address;
    var b := SentComesFromChain(e.cfg, w.disk, c, e.cfg.addresses[i], since, current, view.contents, view.scans(i), d);
    FetchMeaning(view.contents, a, view.scans(j), since, current, ChunkSize(c));
    SentIff(e.cfg, w.disk, c, e.cfg.addresses[j], since, current, view.contents, view.scans(j), d.txHash);
    var d' :| d' in ScanSpec(e.cfg, w.disk, c, e.cfg.addresses[j], since, current, view.contents,
        view.scans(j)).sends && d'.txHash == d.txHash;
    assert SentBy(w, e, c, j, d');
    ScanSends(e.cfg, w.disk, c, view, j);
    ScanSends(e.cfg, w.disk, c, view, i);
  }
}
