/** How long a chain can fail without anybody being told. */
module Silence {
  import opened Types
  import opened Seqs
  import opened Explorer
  import opened ChainResults
  import opened Discovery
  import opened Orchestrator
  import opened Runs
  import opened Completeness

  function PassErrors(w: World, e: RunEnv): seq<ErrorReport> {
    Concat(Map(ErrorsIn, Discover(e.cfg, w.disk, e.views)))
  }

  function ErrorsOf(w: World, e: RunEnv, c: Chain): seq<ErrorReport> {
    RunChain(e.cfg, w.disk, c, e.views(c)).result.errors
  }

  /** At time t the run found that the height of chain c, or the receives of one of its addresses, cannot be had. */
  ghost predicate FailedAt(w: World, e: RunEnv, c: Chain, t: Time) {
    var view := e.views(c);
    || (view.height.None? && t == view.heightCheckedAt)
    || (view.height.Some? && SinceBlock(e.cfg, w.disk, c).Some? &&
        exists i :: 0 <= i < |e.cfg.addresses| && t == view.scans(i).checkedAt &&
          Fetch(view.contents, e.cfg.addresses[i].address, view.scans(i), SinceBlock(e.cfg, w.disk, c).value,
              view.height.value, ChunkSize(c)).Err?)
  }

  ghost predicate Reported(w: World, e: RunEnv, c: Chain) {
    exists r :: r in PassErrors(w, e) && r.chain == c
  }

  lemma {:induction false} TotalErrors(rs: seq<ChainResult>, x: ErrorReport)
    ensures x in Total(rs).errors <==> exists i :: 0 <= i < |rs| && x in rs[i].errors
  {
    if rs != [] {
      TotalErrors(rs[..|rs| - 1], x);
    }
  }

  lemma ChainErrorsReported(w: World, e: RunEnv, c: Chain, x: ErrorReport)
    ensures x in PassErrors(w, e) <==> exists k :: 0 <= k < |ALL_CHAINS| && x in ErrorsOf(w, e, ALL_CHAINS[k])
  {
    var lists := Map(ErrorsIn, Discover(e.cfg, w.disk, e.views));
    ConcatIn(lists, x);
    forall k | 0 <= k < |ALL_CHAINS|
      ensures lists[k] == ErrorsOf(w, e, ALL_CHAINS[k])
    {
    }
  }

  /** The failure that a report names: the chain's height, or the fetch for one of its addresses. */
  ghost predicate Names(w: World, e: RunEnv, x: ErrorReport, t: Time) {
    var view := e.views(x.chain);
    match x
    case HeightFailed(c) => view.height.None? && t == view.heightCheckedAt
    case FetchFailed(c, a) =>
      && view.height.Some? && SinceBlock(e.cfg, w.disk, c).Some?
      && exists i :: 0 <= i < |e.cfg.addresses| && e.cfg.addresses[i].address == a && t == view.scans(i).checkedAt
           && Fetch(view.contents, a, view.scans(i), SinceBlock(e.cfg, w.disk, c).value, view.height.value,
                  ChunkSize(c)).Err?
  }

  /** The errors of a pass are exactly the failures met at a stale moment, each named for what failed. */
  lemma ErrorsExactly(w: World, e: RunEnv, x: ErrorReport)
    ensures x in PassErrors(w, e) <==> exists t :: Names(w, e, x, t) && IsChainStale(w.disk, x.chain, t)
  {
    ChainErrorsReported(w, e, x.chain, x);
    if x in PassErrors(w, e) {
      var k :| 0 <= k < |ALL_CHAINS| && x in ErrorsOf(w, e, ALL_CHAINS[k]);
      ErrorIsNamed(w, e, ALL_CHAINS[k], x);
    }
    if t :| Names(w, e, x, t) && IsChainStale(w.disk, x.chain, t) {
      NamedIsError(w, e, x, t);
      assert ALL_CHAINS[ChainIndex(x.chain)] == x.chain;
    }
  }

  lemma ErrorIsNamed(w: World, e: RunEnv, c: Chain, x: ErrorReport)
    requires x in ErrorsOf(w, e, c)
    ensures x.chain == c && exists t :: Names(w, e, x, t) && IsChainStale(w.disk, c, t)
  {
    var view := e.views(c);
    if view.height.None? {
      assert Names(w, e, x, view.heightCheckedAt);
    } else {
      var scans := RunChain(e.cfg, w.disk, c, view).scans;
      TotalErrors(Map(ResultOf, scans), x);
      var i :| 0 <= i < |scans| && x in Map(ResultOf, scans)[i].errors;
      assert x in scans[i].result.errors;
      assert Names(w, e, x, view.scans(i).checkedAt);
    }
  }

  lemma NamedIsError(w: World, e: RunEnv, x: ErrorReport, t: Time)
    requires Names(w, e, x, t) && IsChainStale(w.disk, x.chain, t)
    ensures x in ErrorsOf(w, e, x.chain)
  {
    var c, view := x.chain, e.views(x.chain);
    if view.height.Some? {
      var i :| 0 <= i < |e.cfg.addresses| && e.cfg.addresses[i].address == x.address && t == view.scans(i).checkedAt
        && Fetch(view.contents, x.address, view.scans(i), SinceBlock(e.cfg, w.disk, c).value, view.height.value,
               ChunkSize(c)).Err?;
      var scans := RunChain(e.cfg, w.disk, c, view).scans;
      assert x in scans[i].result.errors;
      assert x in Map(ResultOf, scans)[i].errors;
      TotalErrors(Map(ResultOf, scans), x);
    }
  }

  /** A failing chain is reported exactly when one of its failures was met while its data were stale. */
  lemma ReportedIff(w: World, e: RunEnv, c: Chain)
    ensures Reported(w, e, c) <==> exists t :: FailedAt(w, e, c, t) && IsChainStale(w.disk, c, t)
  {
    hide PassErrors, IsChainStale;
    if x :| x in PassErrors(w, e) && x.chain == c {
      ErrorsExactly(w, e, x);
      var t :| Names(w, e, x, t) && IsChainStale(w.disk, c, t);
      assert FailedAt(w, e, c, t);
    }
    if t :| FailedAt(w, e, c, t) && IsChainStale(w.disk, c, t) {
      var x := NameOf(w, e, c, t);
      ErrorsExactly(w, e, x);
    }
  }

  lemma NameOf(w: World, e: RunEnv, c: Chain, t: Time) returns (x: ErrorReport)
    requires FailedAt(w, e, c, t)
    ensures x.chain == c && Names(w, e, x, t)
  {
    var view := e.views(c);
    if view.height.None? {
      x := HeightFailed(c);
    } else {
      var i :| 0 <= i < |e.cfg.addresses| && t == view.scans(i).checkedAt &&
        Fetch(view.contents, e.cfg.addresses[i].address, view.scans(i), SinceBlock(e.cfg, w.disk, c).value,
            view.height.value, ChunkSize(c)).Err?;
      x := FetchFailed(c, e.cfg.addresses[i].address);
    }
  }

  predicate Records(ws: seq<World>, envs: seq<RunEnv>, c: Chain, j: nat)
    requires j < |envs| && |ws| == |envs| + 1
  {
    envs[j].fate.Saved? && Recorded(ws[j], envs[j], c).Some?
  }

  /** Run j is the last of the first n that stored a frontier for the chain. */
  ghost predicate LastRecord(ws: seq<World>, envs: seq<RunEnv>, c: Chain, j: nat, n: nat)
    requires j < n <= |envs| && |ws| == |envs| + 1
  {
    Records(ws, envs, c, j) && forall k :: j < k < n ==> !Records(ws, envs, c, k)
  }

  /** The stored poll time of a chain is the merge time of the last run that stored a frontier for it. */
  lemma {:induction false} UpdatedAtLastRecord(ws: seq<World>, envs: seq<RunEnv>, c: Chain, n: nat) returns (j: nat)
    requires History(ws, envs) && n <= |envs| && c in ws[n].disk.lastSeen
    ensures j < n && LastRecord(ws, envs, c, j, n)
    ensures ws[n].disk.lastSeen[c].updatedAt == envs[j].views(c).mergedAt
  {
    hide RunOnce, Completes, RunChain, Recorded;
    if n > 0 {
      assert IsRun(ws, envs, n - 1);
      FrontierAfter(ws[n - 1], envs[n - 1], c);
      if Records(ws, envs, c, n - 1) {
        j := n - 1;
      } else {
        j := UpdatedAtLastRecord(ws, envs, c, n - 1);
      }
    }
  }

  /**
   * If a chain fails in a run and the run does not report it, then the last run that stored a frontier
   * for the chain did so no more than six hours before the failure.
   */
  lemma SilentOnlyWhenRecent(ws: seq<World>, envs: seq<RunEnv>, c: Chain, n: nat, t: Time) returns (j: nat)
    requires History(ws, envs) && n < |envs|
    requires FailedAt(ws[n], envs[n], c, t) && !Reported(ws[n], envs[n], c)
    ensures j < n && LastRecord(ws, envs, c, j, n)
    ensures t - envs[j].views(c).mergedAt <= CHAIN_STALE_THRESHOLD
  {
    ReportedIff(ws[n], envs[n], c);
    j := UpdatedAtLastRecord(ws, envs, c, n);
  }

  // ---------------------------------------------------------------------------
  // What exactly is reported
  // ---------------------------------------------------------------------------

  /** Six hours, in nanoseconds. */
  const SIX_HOURS: nat := 6 * 3_600 * 1_000_000_000

  /** At time t, no run before n had stored a frontier for the chain within the last six hours. */
  ghost predicate Unheard(ws: seq<World>, envs: seq<RunEnv>, c: Chain, n: nat, t: Time)
    requires n <= |envs| && |ws| == |envs| + 1
  {
    forall j :: 0 <= j < n && LastRecord(ws, envs, c, j, n) ==> t - envs[j].views(c).mergedAt > SIX_HOURS
  }

  lemma LastRecordIsOne(ws: seq<World>, envs: seq<RunEnv>, c: Chain, i: nat, j: nat, n: nat)
    requires i < n <= |envs| && j < n && |ws| == |envs| + 1
    requires LastRecord(ws, envs, c, i, n) && LastRecord(ws, envs, c, j, n)
    ensures i == j
  {
    hide Records;
  }

  lemma {:induction false} StoredMeansRecorded(ws: seq<World>, envs: seq<RunEnv>, c: Chain, n: nat)
    requires History(ws, envs) && n <= |envs| && c !in ws[n].disk.lastSeen
    ensures forall j :: 0 <= j < n ==> !Records(ws, envs, c, j)
  {
    hide RunOnce, Completes, RunChain, Recorded;
    if n > 0 {
      assert IsRun(ws, envs, n - 1);
      FrontierAfter(ws[n - 1], envs[n - 1], c);
      StoredMeansRecorded(ws, envs, c, n - 1);
    }
  }

  /** A chain's data are stale exactly when no run has stored a frontier for it within the last six hours. */
  lemma StaleIffUnheard(ws: seq<World>, envs: seq<RunEnv>, c: Chain, n: nat, t: Time)
    requires History(ws, envs) && n <= |envs|
    ensures IsChainStale(ws[n].disk, c, t) <==> Unheard(ws, envs, c, n, t)
  {
    hide Records;
    if c in ws[n].disk.lastSeen {
      var j := UpdatedAtLastRecord(ws, envs, c, n);
      forall i | 0 <= i < n && LastRecord(ws, envs, c, i, n)
        ensures i == j
      {
        LastRecordIsOne(ws, envs, c, i, j, n);
      }
    } else {
      StoredMeansRecorded(ws, envs, c, n);
    }
  }

  /**
   * Over any history: a run reports a chain exactly when one of its failures on that chain came more than
   * six hours after the last run that stored a frontier for it merged its results, or there is none.
   */
  lemma ReportedIffUnheard(ws: seq<World>, envs: seq<RunEnv>, c: Chain, n: nat)
    requires History(ws, envs) && n < |envs|
    ensures Reported(ws[n], envs[n], c) <==> exists t :: FailedAt(ws[n], envs[n], c, t) && Unheard(ws, envs, c, n, t)
  {
    ReportedIff(ws[n], envs[n], c);
    hide FailedAt, Unheard, Reported, IsChainStale;
    forall t: Time
      ensures IsChainStale(ws[n].disk, c, t) <==> Unheard(ws, envs, c, n, t)
    {
      StaleIffUnheard(ws, envs, c, n, t);
    }
  }

  /** A run whose failures on a chain all come within six hours of such a merge says nothing about it. */
  lemma QuietWithinSixHours(ws: seq<World>, envs: seq<RunEnv>, c: Chain, n: nat, j: nat)
    requires History(ws, envs) && j < n < |envs| && LastRecord(ws, envs, c, j, n)
    requires forall t: Time :: FailedAt(ws[n], envs[n], c, t) ==> t - envs[j].views(c).mergedAt <= SIX_HOURS
    ensures forall x :: x in PassErrors(ws[n], envs[n]) ==> x.chain != c
  {
    ReportedIffUnheard(ws, envs, c, n);
    hide FailedAt, LastRecord;
  }
}
