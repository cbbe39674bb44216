/** Sequences of cron runs over one state file, with any failures, and what holds over all of them. */
module Runs {
  import opened Types
  import opened Seqs
  import opened Discovery
  import opened Worker
  import opened Pipeline
  import opened Persistence
  import opened Orchestrator

  /** How a run ends: with the state saved, with a failed save, or killed at some point before saving. */
  datatype Fate = Saved | SaveFailed | Crashed

  /** One run: its configuration, what it meets, and how it ends. */
  datatype RunEnv = RunEnv(
    cfg: Config,
    views: Views,
    exchange: Exchange,
    schedule: seq<Step>,
    prunedAt: Time,
    fate: Fate)

  /**
   * The state file and, beside it, the history no run can see: every liquidation ever finished, and
   * the chains whose recorded frontier came from a height of at least the confirmation depth.
   */
  datatype World = World(disk: State, done: seq<LiquidationResult>, deep: set<Chain>)

  const NEW_WORLD := World(EMPTY_STATE, [], {})

  function PipeAfter(w: World, e: RunEnv): Pipe {
    PassPipe(e.cfg, w.disk, e.views, e.exchange, e.schedule)
  }

  function Results(w: World, e: RunEnv): seq<LiquidationResult> {
    Map(ResultIn, PipeAfter(w, e).results)
  }

  function Merged(w: World, e: RunEnv): State {
    AfterPass(w.disk, Discover(e.cfg, w.disk, e.views), e.views, Results(w, e))
  }

  /** The frontier the run records for a chain, if any. */
  function Recorded(w: World, e: RunEnv, c: Chain): Option<u64> {
    RunChain(e.cfg, w.disk, c, e.views(c)).result.LatestSeenBlock()
  }

  /** The i-th address scan of chain c sends the deposit. */
  predicate SentBy(w: World, e: RunEnv, c: Chain, i: int, d: EligibleDeposit) {
    var scans := RunChain(e.cfg, w.disk, c, e.views(c)).scans;
    0 <= i < |scans| && d in scans[i].sends
  }

  function Floor(e: RunEnv, c: Chain): u64
    requires e.views(c).height.Some?
  {
    SatSub(e.views(c).height.value, e.cfg.ConfirmationsFor(c))
  }

  function RunOnce(w: World, e: RunEnv): World {
    World(
      if e.fate.Saved? then Prune(Merged(w, e), e.prunedAt - RETENTION) else w.disk,
      w.done + Results(w, e),
      if e.fate.Saved? then
        set c | c in ALL_CHAINS &&
          if Recorded(w, e, c).Some? then e.views(c).height.Some?
              && e.views(c).height.value >= e.cfg.ConfirmationsFor(c)
          else c in w.deep
      else w.deep)
  }

  /** A run that is not killed goes on until its worker has exited. */
  predicate Completes(w: World, e: RunEnv) {
    e.fate.Crashed? || PipeAfter(w, e).exited
  }

  /** Run i took the world from ws[i] to ws[i + 1]. */
  ghost predicate IsRun(ws: seq<World>, envs: seq<RunEnv>, i: nat)
    requires i < |envs| && |ws| == |envs| + 1
  {
    Completes(ws[i], envs[i]) && ws[i + 1] == RunOnce(ws[i], envs[i])
  }

  /** Any number of runs, one after the other, from an empty state file: the lock rules out overlaps. */
  ghost predicate History(ws: seq<World>, envs: seq<RunEnv>) {
    && |ws| == |envs| + 1
    && ws[0] == NEW_WORLD
    && forall i :: 0 <= i < |envs| ==> IsRun(ws, envs, i)
  }

  /** What the saved ones among the first n runs liquidated, or (saved false) what all the others did. */
  function ResultsOf(ws: seq<World>, envs: seq<RunEnv>, saved: bool, n: nat): seq<LiquidationResult>
    requires n <= |envs| && |ws| == |envs| + 1
  {
    if n == 0 then []
    else
      ResultsOf(ws, envs, saved, n - 1)
      + if envs[n - 1].fate.Saved? == saved then Results(ws[n - 1], envs[n - 1]) else []
  }

  /** Where the operating system may end a run; a save that is cut short counts as failing where it was cut. */
  datatype KillPoint = InPass | BeforePrune | BeforeSave | InSave(fault: SaveFault)

  datatype Ending = Returns(fault: SaveFault) | Killed(at: KillPoint)
  {
    function Fate(): Fate {
      match this
      case Returns(fault) => if fault.NoFault? then Saved else SaveFailed
      case Killed(at) => if at.InSave? && at.fault.NoFault? then Saved else Crashed
    }

    function SaveFault(): SaveFault
      requires this.Returns? || at.InSave?
    {
      if this.Returns? then fault else at.fault
    }
  }

  datatype Report = NotLoaded | Dead | Completed(errors: seq<ErrorReport>, saveFailed: bool)

  /**
   * The program: load, check, prune, save. A run that cannot load the file, and one that is killed,
   * leave it as it was, unless the kill comes after the new state has taken the old one's place.
   */
  method RunProgram(file: StateFile, cfg: Config, views: Views, x: Exchange, schedule: seq<Step>, prunedAt: Time,
        loading: LoadFault, ending: Ending)
    returns (report: Report)
    requires ending != Killed(InPass) ==> PassPipe(cfg, file.Saved(), views, x, schedule).exited
    modifies file
    ensures report.NotLoaded? <==> old(file.contents).Some? && !loading.Loadable?
    ensures report.NotLoaded? ==> file.contents == old(file.contents)
    ensures !report.NotLoaded? ==>
              file.Saved() == RunOnce(World(old(file.Saved()), [], {}), RunEnv(cfg, views, x, schedule, prunedAt,
                  ending.Fate())).disk
    ensures report.Dead? <==> !report.NotLoaded? && ending.Killed?
    ensures report.Completed? ==>
              && (report.saveFailed <==> !ending.fault.NoFault?)
              && report.errors == Concat(Map(ErrorsIn, Discover(cfg, old(file.Saved()), views)))
  {
    hide PassPipe, AfterPass, Discover, Prune, Recorded;
    var loaded := file.Load(loading);
    if loaded.Err? {
      return NotLoaded;
    }
    var state := loaded.value;
    if ending == Killed(InPass) {
      return Dead;
    }
    var errors := DepositCheck(state, cfg, views, x, schedule);
    if ending == Killed(BeforePrune) {
      return Dead;
    }
    PruneStaleEntries(state, prunedAt);
    if ending == Killed(BeforeSave) {
      return Dead;
    }
    var ok := file.Save(state, ending.SaveFault());
    report := if ending.Killed? then Dead else Completed(errors, !ok);
  }

  // ---------------------------------------------------------------------------
  // One run
  // ---------------------------------------------------------------------------

  function DepositIn(j: Job): EligibleDeposit {
    j.deposit
  }

  function Sends(w: World, e: RunEnv): seq<EligibleDeposit> {
    AllSends(Discover(e.cfg, w.disk, e.views))
  }

  /** What a run sends is what the address scans of its chains send. */
  lemma SendsMeaning(w: World, e: RunEnv, d: EligibleDeposit)
    ensures d in Sends(w, e)
       <==> exists c, i :: SentBy(w, e, c, i, d)
  {
    var outs := Discover(e.cfg, w.disk, e.views);
    SendListsMeaning(outs, d);
    if k, i :| 0 <= k < |outs| && 0 <= i < |outs[k].scans| && d in outs[k].scans[i].sends {
      assert SentBy(w, e, ALL_CHAINS[k], i, d);
    }
    if c, i :| SentBy(w, e, c, i, d) {
      assert d in outs[ChainIndex(c)].scans[i].sends;
    }
  }

  lemma {:induction false} SendListsMeaning(outs: seq<ChainOutcome>, d: EligibleDeposit)
    ensures d in AllSends(outs)
       <==> exists k, i :: 0 <= k < |outs| && 0 <= i < |outs[k].scans| && d in outs[k].scans[i].sends
  {
    if outs != [] {
      SendListsMeaning(outs[1..], d);
      ConcatAppend(Map(SendsOf, outs[0].scans), SendLists(outs[1..]));
      ConcatIn(Map(SendsOf, outs[0].scans), d);
      if i :| 0 <= i < |outs[0].scans| && d in outs[0].scans[i].sends {
        assert d in Map(SendsOf, outs[0].scans)[i];
      }
      if k, i :| 0 <= k < |outs| && 0 <= i < |outs[k].scans| && d in outs[k].scans[i].sends {
        if k > 0 {
          assert outs[1..][k - 1] == outs[k];
        }
      }
      if k, i :| 0 <= k < |outs[1..]| && 0 <= i < |outs[1..][k].scans| && d in outs[1..][k].scans[i].sends {
        assert outs[k + 1] == outs[1..][k];
      }
    }
  }

  /** The results of a completed run correspond one to one to what it sent, in every respect the deposit decides. */
  lemma ResultsReflectSends<B>(w: World, e: RunEnv, f: LiquidationResult -> B, g: EligibleDeposit -> B)
    requires PipeAfter(w, e).exited
    requires forall d, o :: f(ResultFor(d, o)) == g(d)
    ensures multiset(Map(f, Results(w, e))) == multiset(Map(g, Sends(w, e)))
  {
    var lists := SendLists(Discover(e.cfg, w.disk, e.views));
    var found := Tag(lists);
    var sequential := SequentialResults(e.cfg, w.disk, e.views, e.exchange);
    ResultsAreSequential(e.cfg, w.disk, e.views, e.exchange, e.schedule);
    MapPerm(f, Results(w, e), sequential);
    MapConcat(DepositIn, found, lists);
    assert Map(f, sequential) == Map(g, Map(DepositIn, Concat(found)));
  }

  lemma ResultHashes(w: World, e: RunEnv, h: string)
    requires PipeAfter(w, e).exited
    ensures (exists r :: r in Results(w, e) && r.txHash == h) <==> exists d :: d in Sends(w, e) && d.txHash == h
  {
    ResultsReflectSends(w, e, HashIn, HashOf);
    SameMembers(Map(HashIn, Results(w, e)), Map(HashOf, Sends(w, e)));
    MapIn(HashIn, Results(w, e), h);
    MapIn(HashOf, Sends(w, e), h);
  }

  lemma DoneAfter(w: World, e: RunEnv)
    ensures RunOnce(w, e).done == w.done + Results(w, e)
  {
  }

  /** The results of run i are added to those of its kind. */
  lemma ResultsOfNext(ws: seq<World>, envs: seq<RunEnv>, i: nat, saved: bool)
    requires i < |envs| && |ws| == |envs| + 1
    ensures ResultsOf(ws, envs, saved, i + 1)
         == if envs[i].fate.Saved? == saved then ResultsOf(ws, envs, saved, i) + Results(ws[i], envs[i])
            else ResultsOf(ws, envs, saved, i)
  {
    hide Results;
    assert ResultsOf(ws, envs, saved, i) + [] == ResultsOf(ws, envs, saved, i);
  }

  lemma DoneNext(ws: seq<World>, envs: seq<RunEnv>, i: nat)
    requires History(ws, envs) && i < |envs|
    ensures ws[i + 1].done == ws[i].done + Results(ws[i], envs[i])
  {
    hide RunOnce;
    assert IsRun(ws, envs, i);
    DoneAfter(ws[i], envs[i]);
  }

  lemma NothingAtFirst(ws: seq<World>, envs: seq<RunEnv>, saved: bool)
    requires History(ws, envs)
    ensures ws[0].done == [] && ResultsOf(ws, envs, saved, 0) == []
  {
  }

  /** The ledger is what the saved runs and the others liquidated. */
  lemma {:induction false} LedgerSplits(ws: seq<World>, envs: seq<RunEnv>, n: nat)
    requires History(ws, envs) && n <= |envs|
    ensures multiset(ws[n].done) == multiset(ResultsOf(ws, envs, true, n)) + multiset(ResultsOf(ws, envs, false, n))
  {
    hide ResultsOf, Results, IsRun;
    if n > 0 {
      LedgerSplits(ws, envs, n - 1);
      DoneNext(ws, envs, n - 1);
      ResultsOfNext(ws, envs, n - 1, true);
      ResultsOfNext(ws, envs, n - 1, false);
    } else {
      NothingAtFirst(ws, envs, true);
      NothingAtFirst(ws, envs, false);
    }
  }

  lemma {:induction false} AllSavedLedger(ws: seq<World>, envs: seq<RunEnv>, n: nat)
    requires History(ws, envs) && n <= |envs| && forall i :: 0 <= i < n ==> envs[i].fate.Saved?
    ensures ws[n].done == ResultsOf(ws, envs, true, n) && ResultsOf(ws, envs, false, n) == []
  {
    hide ResultsOf, Results, IsRun;
    if n > 0 {
      AllSavedLedger(ws, envs, n - 1);
      DoneNext(ws, envs, n - 1);
      ResultsOfNext(ws, envs, n - 1, true);
      ResultsOfNext(ws, envs, n - 1, false);
    } else {
      NothingAtFirst(ws, envs, true);
      NothingAtFirst(ws, envs, false);
    }
  }

  /** Also in a run that is killed, every result is of a deposit that was found. */
  lemma ResultComesFromSend(w: World, e: RunEnv, r: LiquidationResult) returns (d: EligibleDeposit, o: Outcome)
    requires r in Results(w, e)
    ensures d in Sends(w, e) && r == ResultFor(d, o)
  {
    var lists := SendLists(Discover(e.cfg, w.disk, e.views));
    var found, s := Tag(lists), PipeAfter(w, e);
    TagDistinct(lists);
    AlwaysConserved(e.exchange, e.cfg.maxAutoAmount, found, e.schedule);
    AlwaysFaithful(e.exchange, e.cfg.maxAutoAmount, found, e.schedule);
    var k :| 0 <= k < |s.results| && Map(ResultIn, s.results)[k] == r;
    var job := s.results[k].job;
    d, o := job.deposit, LiquidatePipeline(e.exchange, e.cfg.maxAutoAmount, job).outcome;
    assert Map(DoneJob, s.results)[k] == job;
    assert job in multiset(Concat(found));
    ConcatIn(found, job);
    var p :| 0 <= p < |found| && job in found[p];
    var i :| 0 <= i < |found[p]| && found[p][i] == job;
    assert d == lists[p][i];
    ConcatIn(lists, d);
  }
}
