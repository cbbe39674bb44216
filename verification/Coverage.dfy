/** Which blocks the runs of a history have scanned, for which addresses. */
module Coverage {
  import opened Types
  import opened Explorer
  import opened Discovery
  import opened Runs
  import opened Completeness

  /** The i-th address scan of chain c in this run got to block b, and b was final at the run's height. */
  predicate ScanCovers(w: World, e: RunEnv, c: Chain, i: int, b: u64) {
    var view, since := e.views(c), SinceBlock(e.cfg, w.disk, c);
    && view.height.Some? && since.Some? && 0 <= i < |e.cfg.addresses|
    && Reaches(e.cfg, c, e.cfg.addresses[i], since.value, view.height.value, view.contents, view.scans(i), b)
  }

  ghost predicate Covers(w: World, e: RunEnv, c: Chain, a: string, b: u64) {
    exists i :: ScanCovers(w, e, c, i, b) && e.cfg.addresses[i].address == a
  }

  /** One of the first n runs scanned block b for address a while b was final. */
  ghost predicate Scanned(ws: seq<World>, envs: seq<RunEnv>, n: nat, c: Chain, a: string, b: u64)
    requires n <= |envs| && |ws| == |envs| + 1
  {
    exists j :: 0 <= j < n && Covers(ws[j], envs[j], c, a, b)
  }

  /** And that run was saved. */
  ghost predicate SavedScan(ws: seq<World>, envs: seq<RunEnv>, n: nat, c: Chain, a: string, b: u64)
    requires n <= |envs| && |ws| == |envs| + 1
  {
    exists j :: 0 <= j < n && envs[j].fate.Saved? && Covers(ws[j], envs[j], c, a, b)
  }

  /** Without outages a scan covers the final blocks from its restart block on. */
  lemma CoversWithoutOutage(w: World, e: RunEnv, c: Chain, i: nat, b: u64)
    requires i < |e.cfg.addresses| && forall q :: !e.views(c).scans(i).down(q)
    requires e.views(c).height.Some? && SinceBlock(e.cfg, w.disk, c).Some?
    ensures ScanCovers(w, e, c, i, b)
       <==> SinceBlock(e.cfg, w.disk, c).value <= b && b + e.cfg.ConfirmationsFor(c) <= e.views(c).height.value
  {
    var view := e.views(c);
    FetchMeaning(view.contents, e.cfg.addresses[i].address, view.scans(i), SinceBlock(e.cfg, w.disk, c).value,
        view.height.value, ChunkSize(c));
  }

  /** A run that records a frontier has covered everything from its restart block up to there, for every address. */
  lemma RecordedMeansCovered(w: World, e: RunEnv, c: Chain, a: string, b: u64)
    requires Recorded(w, e, c).Some? && Monitors(e.cfg, a)
    requires SinceBlock(e.cfg, w.disk, c).Some? ==> SinceBlock(e.cfg, w.disk, c).value <= b
    requires b < Recorded(w, e, c).value
          || (b == Recorded(w, e, c).value && e.views(c).height.Some?
              && e.cfg.ConfirmationsFor(c) <= e.views(c).height.value)
    ensures Covers(w, e, c, a, b)
  {
    RecordedMeaning(e.cfg, w.disk, c, e.views(c), Recorded(w, e, c).value);
    var i :| 0 <= i < |e.cfg.addresses| && e.cfg.addresses[i].address == a;
    assert ScanCovers(w, e, c, i, b);
  }

  /** Block b was not behind the frontier before run k, and has been passed by run n, if only since then. */
  predicate PassedSince(ws: seq<World>, k: nat, n: nat, c: Chain, b: u64)
    requires k <= n < |ws|
  {
    && Passed(ws[n], c, b)
    && (c in ws[k].disk.lastSeen ==> ws[k].disk.lastSeen[c].block <= b)
    && (Passed(ws[k], c, b) ==> b < ws[n].disk.lastSeen[c].block)
  }

  lemma PassedSinceStart(ws: seq<World>, envs: seq<RunEnv>, n: nat, c: Chain, b: u64)
    requires History(ws, envs) && n <= |envs|
    ensures PassedSince(ws, 0, n, c, b) <==> Passed(ws[n], c, b)
  {
  }

  /**
   * Whatever failed on the way, every block that the frontier has passed while an address was watched was
   * scanned for it by some saved run, when the block was final.
   */
  lemma {:induction false} PassedMeansScanned(ws: seq<World>, envs: seq<RunEnv>, c: Chain, a: string, k: nat, n: nat,
        b: u64)
    requires History(ws, envs) && k <= n <= |envs| && forall i :: k <= i < n ==> Watches(envs[i], c, a, b)
    requires PassedSince(ws, k, n, c, b)
    ensures SavedScan(ws, envs, n, c, a, b)
  {
    hide RunOnce, Completes;
    if n > k {
      var w, e := ws[n - 1], envs[n - 1];
      assert IsRun(ws, envs, n - 1);
      FrontierAfter(w, e, c);
      DeepAfter(w, e, c);
      if PassedSince(ws, k, n - 1, c, b) {
        PassedMeansScanned(ws, envs, c, a, k, n - 1, b);
      } else {
        RecordedMeansCovered(w, e, c, a, b);
      }
    }
  }

  lemma DeepAfter(w: World, e: RunEnv, c: Chain)
    ensures c in RunOnce(w, e).deep
       <==> if e.fate.Saved? && Recorded(w, e, c).Some?
            then e.views(c).height.Some? && e.cfg.ConfirmationsFor(c) <= e.views(c).height.value
            else c in w.deep
  {
    assert ALL_CHAINS[ChainIndex(c)] == c;
  }

  // ---------------------------------------------------------------------------
  // The start block as a lower bound
  // ---------------------------------------------------------------------------

  /** Scans of the chain start at s when nothing is stored, and s is no run's future. */
  ghost predicate StartsAt(e: RunEnv, c: Chain, s: u64) {
    && (c in e.cfg.startBlocks ==> e.cfg.startBlocks[c] == s)
    && (e.views(c).height.Some? ==> s <= Floor(e, c))
  }

  /** Frontiers stay at or above the start block when no confirmation floor is below it. */
  lemma {:induction false} FrontierAboveStart(ws: seq<World>, envs: seq<RunEnv>, c: Chain, s: u64, n: nat)
    requires History(ws, envs) && n <= |envs| && forall i :: 0 <= i < n ==> StartsAt(envs[i], c, s)
    ensures c in ws[n].disk.lastSeen ==> s <= ws[n].disk.lastSeen[c].block
  {
    hide RunOnce, Completes;
    if n > 0 {
      var w, e := ws[n - 1], envs[n - 1];
      FrontierAboveStart(ws, envs, c, s, n - 1);
      assert IsRun(ws, envs, n - 1);
      FrontierAfter(w, e, c);
      if Recorded(w, e, c).Some? {
        RecordedAboveStart(w, e, c, s, Recorded(w, e, c).value);
      }
    }
  }

  /** The recorded frontier is below neither the restart block nor the floor, whichever is less. */
  lemma RecordedAboveStart(w: World, e: RunEnv, c: Chain, s: u64, m: u64)
    requires Recorded(w, e, c) == Some(m) && StartsAt(e, c, s)
    requires c in w.disk.lastSeen ==> s <= w.disk.lastSeen[c].block
    ensures s <= m
  {
    RecordedMeaning(e.cfg, w.disk, c, e.views(c), m);
    RecordedAtLeast(e.cfg, w.disk, c, e.views(c), m);
  }

  /** Blocks below the start block are never scanned then. */
  lemma NothingScannedBelowStart(ws: seq<World>, envs: seq<RunEnv>, c: Chain, a: string, s: u64, n: nat, b: u64)
    requires History(ws, envs) && n <= |envs| && forall i :: 0 <= i < n ==> StartsAt(envs[i], c, s)
    requires Scanned(ws, envs, n, c, a, b) || SavedScan(ws, envs, n, c, a, b)
    ensures s <= b
  {
    hide RunOnce, Completes;
    var j :| 0 <= j < n && Covers(ws[j], envs[j], c, a, b);
    FrontierAboveStart(ws, envs, c, s, j);
  }
}
