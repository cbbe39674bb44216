/**
 * What one run does to a chain, in the terms of the configuration file, the chain and the clock: the
 * configured depth (14 when there is none), 1,000,000 millionths, chunks of 10,000 blocks.
 */
module CleanRuns {
  import opened Types
  import opened Explorer
  import opened Discovery
  import opened Runs
  import opened Completeness

  /** The depth that the configuration asks for on a chain. */
  ghost predicate Asks(cfg: Config, c: Chain, depth: u64) {
    depth == if c in cfg.confirmationBlocks then cfg.confirmationBlocks[c] else 14
  }

  /** Scans of the chain restart from here: the stored frontier, or the start block of a chain without one. */
  ghost predicate RestartsFrom(w: World, e: RunEnv, c: Chain, since: u64) {
    if c in w.disk.lastSeen then since == w.disk.lastSeen[c].block
    else c in e.cfg.startBlocks && since == e.cfg.startBlocks[c]
  }

  /** The i-th address has a transfer of at least one USDC in block b, with this hash. */
  ghost predicate Pays(w: World, e: RunEnv, c: Chain, i: nat, b: u64, h: string)
    requires i < |e.cfg.addresses|
  {
    exists t :: t in e.views(c).contents(e.cfg.addresses[i].address, b) && t.txHash == h && t.amount >= 1_000_000
  }

  ghost predicate SentByScan(w: World, e: RunEnv, c: Chain, i: nat, h: string) {
    exists d :: SentBy(w, e, c, i, d) && d.txHash == h
  }

  /** Whatever fails, nothing is sent before it is as deep as the configuration asks, or for less than one USDC. */
  lemma SentIsDeep(w: World, e: RunEnv, c: Chain, i: nat, h: string, depth: u64) returns (b: u64)
    requires Asks(e.cfg, c, depth) && SentByScan(w, e, c, i, h)
    ensures i < |e.cfg.addresses| && e.views(c).height.Some? && Pays(w, e, c, i, b, h)
    ensures b + depth <= e.views(c).height.value
    ensures exists since: u64 :: RestartsFrom(w, e, c, since) && since <= b
    ensures h !in w.disk.processed
  {
    var d :| SentBy(w, e, c, i, d) && d.txHash == h;
    var view, since := e.views(c), SinceBlock(e.cfg, w.disk, c).value;
    b := SentComesFromChain(e.cfg, w.disk, c, e.cfg.addresses[i], since, view.height.value, view.contents,
        view.scans(i), d);
    assert RestartsFrom(w, e, c, since);
  }

  /**
   * Without outages a scan sends a hash exactly when it is new and a transfer of at least one USDC carries it,
   * in a block that is not before the restart block and as deep as the configuration asks.
   */
  lemma SentExactly(w: World, e: RunEnv, c: Chain, i: nat, h: string, depth: u64, since: u64)
    requires Asks(e.cfg, c, depth) && RestartsFrom(w, e, c, since)
    requires e.views(c).height.Some?
    requires i < |e.cfg.addresses| && forall q :: !e.views(c).scans(i).down(q)
    ensures SentByScan(w, e, c, i, h)
       <==> h !in w.disk.processed
            && exists b: u64 :: since <= b && b + depth <= e.views(c).height.value && Pays(w, e, c, i, b, h)
  {
    if SentByScan(w, e, c, i, h) {
      var b := SentIsDeep(w, e, c, i, h, depth);
    }
    if h !in w.disk.processed
        && exists b: u64 :: since <= b && b + depth <= e.views(c).height.value && Pays(w, e, c, i, b, h) {
      var b: u64 :| since <= b && b + depth <= e.views(c).height.value && Pays(w, e, c, i, b, h);
      PayingIsSent(w, e, c, i, h, b);
    }
  }

  lemma PayingIsSent(w: World, e: RunEnv, c: Chain, i: nat, h: string, b: u64)
    requires e.views(c).height.Some? && SinceBlock(e.cfg, w.disk, c).Some? && i < |e.cfg.addresses|
    requires forall q :: !e.views(c).scans(i).down(q)
    requires h !in w.disk.processed && Pays(w, e, c, i, b, h) && SinceBlock(e.cfg, w.disk, c).value <= b
    requires b + e.cfg.ConfirmationsFor(c) <= e.views(c).height.value
    ensures SentByScan(w, e, c, i, h)
  {
    var view, ac, since := e.views(c), e.cfg.addresses[i], SinceBlock(e.cfg, w.disk, c).value;
    FetchMeaning(view.contents, ac.address, view.scans(i), since, view.height.value, ChunkSize(c));
    var t :| t in view.contents(ac.address, b) && t.txHash == h && t.amount >= 1_000_000;
    assert FinalTransfer(view.contents, ac.address, b, t, view.height.value, e.cfg.ConfirmationsFor(c));
    SentIff(e.cfg, w.disk, c, ac, since, view.height.value, view.contents, view.scans(i), h);
    var d :| d in RunChain(e.cfg, w.disk, c, view).scans[i].sends && d.txHash == h;
    assert SentBy(w, e, c, i, d);
  }

  /** The block below which everything is deep enough. */
  function FloorAt(height: u64, depth: u64): u64 {
    if height < depth then 0 else height - depth
  }

  lemma RightAfter(m: u64, height: u64, c: Chain)
    requires m < height < U64_MAX
    ensures NextRequest(m + 1, height, ChunkSize(c))
         == Request(m + 1, Min(height, m + if c == Monad then 1_000 else 10_000))
  {
  }

  /**
   * A recorded frontier is never above the floor. It is below it only when some address's request for the
   * blocks right after it, cut at the chain's chunk size, failed.
   */
  lemma HeldBackByOutage(w: World, e: RunEnv, c: Chain, m: u64, depth: u64)
    requires Asks(e.cfg, c, depth) && Recorded(w, e, c) == Some(m)
    ensures e.views(c).height.Some? && m <= FloorAt(e.views(c).height.value, depth)
    ensures m < FloorAt(e.views(c).height.value, depth) ==>
              exists i :: 0 <= i < |e.cfg.addresses|
                && e.views(c).scans(i).down(Request(m + 1, Min(e.views(c).height.value,
                     m + if c == Monad then 1_000 else 10_000)))
  {
    var view := e.views(c);
    RecordedIff(e.cfg, w.disk, c, view, m);
    assert IsLeast(Progresses(e.cfg, w.disk, c, view), m);
    hide Recorded, Progress;
    var i :| 0 <= i < |e.cfg.addresses| && Progresses(e.cfg, w.disk, c, view)[i] == Some(m);
    ProgressStops(e.cfg, w.disk, c, view, i, m);
    if m < FloorAt(view.height.value, depth) {
      RightAfter(m, view.height.value, c);
    }
  }

  /** Without outages, and with an address to scan, a run records exactly the floor of the configured depth. */
  lemma RecordsItsFloor(w: World, e: RunEnv, c: Chain, depth: u64, since: u64)
    requires Asks(e.cfg, c, depth) && RestartsFrom(w, e, c, since) && e.views(c).height.Some?
    requires e.cfg.addresses != []
    requires forall i, q :: 0 <= i < |e.cfg.addresses| ==> !e.views(c).scans(i).down(q)
    ensures Recorded(w, e, c) == Some(FloorAt(e.views(c).height.value, depth))
  {
    var view := e.views(c);
    var m := FloorAt(view.height.value, depth);
    forall i | 0 <= i < |e.cfg.addresses|
      ensures Progress(e.cfg, w.disk, c, view, i) == Some(m)
    {
      FetchMeaning(view.contents, e.cfg.addresses[i].address, view.scans(i), SinceBlock(e.cfg, w.disk, c).value,
          view.height.value, ChunkSize(c));
    }
    assert Progresses(e.cfg, w.disk, c, view)[0] == Some(m);
    RecordedIff(e.cfg, w.disk, c, view, m);
  }

  /** What a saved run without outages leaves in the state file for a chain. */
  lemma CleanRunRecords(w: World, e: RunEnv, c: Chain, depth: u64, since: u64)
    requires Asks(e.cfg, c, depth) && RestartsFrom(w, e, c, since) && e.views(c).height.Some?
    requires e.cfg.addresses != [] && e.fate.Saved?
    requires forall i, q :: 0 <= i < |e.cfg.addresses| ==> !e.views(c).scans(i).down(q)
    ensures var after := RunOnce(w, e).disk.lastSeen;
            c in after && after[c] == LastSeenBlock(FloorAt(e.views(c).height.value, depth), e.views(c).mergedAt)
  {
    RecordsItsFloor(w, e, c, depth, since);
    FrontierAfter(w, e, c);
  }
}
