/** Histories in which the program breaks a promise: a deposit liquidated twice, a transfer or a record lost. */
module Examples {
  import opened Types
  import opened Seqs
  import opened AuditKeys
  import opened Explorer
  import opened Discovery
  import opened Worker
  import opened Pipeline
  import opened Persistence
  import opened Orchestrator
  import opened Runs
  import opened Completeness
  import opened Coverage
  import opened AtMostOnce
  import opened TransferLedger
  import opened AuditTrail
  import opened MoneyHistory

  const ALICE := "0x00000000000000000000000000000000000000aa"
  const BOB := "0x00000000000000000000000000000000000000bb"

  const HASH := "0x5e110001"
  const OTHER_HASH := "0x5e110002"

  const FIVE := Transfer(HASH, 5_000_000)
  const SEVEN := Transfer(HASH, 7_000_000)
  const OTHER := Transfer(OTHER_HASH, 6_000_000)

  const ALICE_ONLY := Config(10_000_000_000, [AddressConfig(ALICE, "bank")], map[], map[Base := 0])
  const BOTH := ALICE_ONLY.(addresses := [AddressConfig(ALICE, "bank"), AddressConfig(BOB, "bank")])

  /** Block 5 holds these transfers, and there are no others. */
  function PaidInBlock5(toAlice: seq<Transfer>, toBob: seq<Transfer>): Contents {
    (a: string, b: u64) => if b != 5 then [] else if a == ALICE then toAlice else if a == BOB then toBob else []
  }

  function OnBase(contents: Contents): Chain -> Contents {
    (c: Chain) => if c == Base then contents else (a: string, b: u64) => []
  }

  /** Base answers, other chains do not; the node fails for the address with index `stuck`. */
  function Seen(contents: Contents, height: Height, now: Time, stuck: Option<nat>): Views {
    (c: Chain) => ChainView(if c == Base then Some(height) else None, now, contents, (i: nat) =>
        ScanEnv((q: Request) => stuck == Some(i), now, now, (k: nat) => now), now)
  }

  /** A run that goes on until its worker has exited. */
  lemma CompletedRun(w: World, cfg: Config, views: Views, x: Exchange, prunedAt: Time, fate: Fate) returns (e: RunEnv)
    ensures e == RunEnv(cfg, views, x, e.schedule, prunedAt, fate) && PipeAfter(w, e).exited
  {
    var found := Tag(SendLists(Discover(cfg, w.disk, views)));
    var schedule := CanComplete(x, cfg.maxAutoAmount, Start(found), []);
    e := RunEnv(cfg, views, x, schedule, prunedAt, fate);
  }

  function InBlock5(): string -> Home {
    (h: string) => Home(Base, 5)
  }

  lemma ExampleContents(e: RunEnv, toAlice: seq<Transfer>, toBob: seq<Transfer>, height: Height, now: Time,
        stuck: Option<nat>)
    requires e.views == Seen(PaidInBlock5(toAlice, toBob), height, now, stuck)
    ensures SeesFinalBlocks(OnBase(PaidInBlock5(toAlice, toBob)), e)
    ensures Homes(OnBase(PaidInBlock5(toAlice, toBob)), InBlock5())
  {
  }

  /** A run on this world, saved or not. */
  ghost predicate ExampleRun(e: RunEnv, toAlice: seq<Transfer>, toBob: seq<Transfer>, height: Height, now: Time,
        stuck: Option<nat>)
  {
    && e.views == Seen(PaidInBlock5(toAlice, toBob), height, now, stuck)
    && (e.cfg == ALICE_ONLY || e.cfg == BOTH)
    && e.prunedAt == now
    && 100 <= height
  }

  /** A transfer that leads its transaction is liquidated when its hash is new and its address not stuck. */
  lemma NewIsLiquidated(w: World, e: RunEnv, toAlice: seq<Transfer>, toBob: seq<Transfer>, height: Height, now: Time,
        stuck: Option<nat>, t: Transfer)
    requires ExampleRun(e, toAlice, toBob, height, now, stuck) && PipeAfter(w, e).exited && stuck != Some(0)
    requires t in toAlice && t.amount >= USDC_DUST_THRESHOLD && Leads(toAlice, t)
    requires t.txHash !in w.disk.processed && Base !in w.disk.lastSeen
    ensures InLedger(Results(w, e), Base, ALICE, t)
  {
    hide SeesFinalBlocks, Homes, Leads, ScanCovers;
    var canon := OnBase(PaidInBlock5(toAlice, toBob));
    ExampleContents(e, toAlice, toBob, height, now, stuck);
    CoversWithoutOutage(w, e, Base, 0, 5);
    assert Covers(w, e, Base, ALICE, 5);
    RunLiquidatesItselfIff(w, e, canon, InBlock5(), Base, ALICE, 5, t);
  }

  /** Every result is of a transfer of block 5, processed at the time of the run. */
  lemma ResultsAreOfBlock5(w: World, e: RunEnv, toAlice: seq<Transfer>, toBob: seq<Transfer>, height: Height,
        now: Time, stuck: Option<nat>, r: LiquidationResult)
    requires ExampleRun(e, toAlice, toBob, height, now, stuck) && r in Results(w, e)
    ensures AsTransfer(r) in toAlice || AsTransfer(r) in toBob
    ensures r.payment.processedAt == now && r.payment.txHash == r.txHash && r.txHash !in w.disk.processed
    ensures r.payment.id == MakeId(now, r.txHash)
  {
    var d, o := ResultComesFromSend(w, e, r);
    SendsMeaning(w, e, d);
    var c, i :| SentBy(w, e, c, i, d);
    var view := e.views(c);
    var b := SentComesFromChain(e.cfg, w.disk, c, e.cfg.addresses[i], SinceBlock(e.cfg, w.disk, c).value,
                                view.height.value, view.contents, view.scans(i), d);
  }

  /** A saved run less than 90 days after the epoch prunes nothing, so what it liquidated is in its dedup set. */
  lemma ProcessedAfter(w: World, e: RunEnv, c: Chain, a: string, t: Transfer)
    requires e.fate.Saved? && PipeAfter(w, e).exited && e.prunedAt < RETENTION
    requires InLedger(Results(w, e), c, a, t)
    ensures t.txHash in RunOnce(w, e).disk.processed
  {
    ResultHashes(w, e, t.txHash);
    DedupAfterPass(w, e, t.txHash);
    AfterSavedRun(w, e, t.txHash);
  }

  lemma KeyInLedger(rs: seq<LiquidationResult>, c: Chain, a: string, t: Transfer) returns (i: nat)
    requires InLedger(rs, c, a, t)
    ensures i < |rs| && KeyOfResult(rs[i]) == DepositKey(c, a, t.txHash) && rs[i].payment.amount == t.amount
  {
    var r :| r in rs && ClaimOfResult(r) == Claim(c, a, t);
    i :| 0 <= i < |rs| && rs[i] == r;
  }

  // ---------------------------------------------------------------------------
  // Liquidated twice
  // ---------------------------------------------------------------------------

  lemma TwiceInLedger(done: seq<LiquidationResult>, first: seq<LiquidationResult>, middle: seq<LiquidationResult>,
        again: seq<LiquidationResult>, c: Chain, a: string, t: Transfer)
    requires done == first + middle + again && InLedger(first, c, a, t) && InLedger(again, c, a, t)
    ensures !DistinctBy(KeyOfResult, done)
  {
    var i := KeyInLedger(first, c, a, t);
    var j := KeyInLedger(again, c, a, t);
    assert done[i] == first[i] && done[|first| + |middle| + j] == again[j];
  }

  /** The exchange was sent a sell order of this amount in this run, and it accepted. */
  ghost predicate SoldIn(w: World, e: RunEnv, amount: int) {
    exists call :: call in PipeAfter(w, e).calls && call.Sell? && call.amount == amount && call.proceeds.Some?
  }

  /** With an exchange that accepts every sell, what is liquidated has been sold. */
  lemma LiquidatedIsSold(w: World, e: RunEnv, c: Chain, a: string, t: Transfer)
    requires InLedger(Results(w, e), c, a, t) && t.amount <= e.cfg.maxAutoAmount && forall id :: e.exchange.sell(id).Ok?
    ensures SoldIn(w, e, t.amount)
  {
    var lists := SendLists(Discover(e.cfg, w.disk, e.views));
    var s := PipeAfter(w, e);
    TagDistinct(lists);
    AlwaysFaithful(e.exchange, e.cfg.maxAutoAmount, Tag(lists), e.schedule);
    var k := KeyInLedger(Results(w, e), c, a, t);
    var job := s.results[k].job;
    assert Map(ResultIn, s.results)[k] == s.results[k].result;
    var call := LiquidatePipeline(e.exchange, e.cfg.maxAutoAmount, job).calls[0];
    assert call in CallsOf(s.calls, job.id);
    CallsOfIn(s.calls, job.id, call);
  }

  /** In the run after one that did not save, the deposit is as new as in the first. */
  lemma LiquidatedInBoth(e1: RunEnv, e2: RunEnv, now: Time, height: Height)
    requires !e1.fate.Saved? && PipeAfter(NEW_WORLD, e1).exited && PipeAfter(RunOnce(NEW_WORLD, e1), e2).exited
    requires ExampleRun(e1, [FIVE], [], 100, 0, None) && ExampleRun(e2, [FIVE], [], height, now, None)
    ensures InLedger(Results(NEW_WORLD, e1), Base, ALICE, FIVE)
    ensures InLedger(Results(RunOnce(NEW_WORLD, e1), e2), Base, ALICE, FIVE)
    ensures !DistinctBy(KeyOfResult, RunOnce(RunOnce(NEW_WORLD, e1), e2).done)
  {
    var w := RunOnce(NEW_WORLD, e1);
    assert w.disk == EMPTY_STATE && RunOnce(w, e2).done == Results(NEW_WORLD, e1) + [] + Results(w, e2);
    hide RunOnce, PipeAfter, Results, ExampleRun;
    assert LeadsAt([FIVE], 0);
    NewIsLiquidated(NEW_WORLD, e1, [FIVE], [], 100, 0, None, FIVE);
    NewIsLiquidated(w, e2, [FIVE], [], height, now, None, FIVE);
    TwiceInLedger(RunOnce(w, e2).done, Results(NEW_WORLD, e1), [], Results(w, e2), Base, ALICE, FIVE);
  }

  /** One more run at the end of a history. */
  lemma OneMoreRun(ws: seq<World>, envs: seq<RunEnv>, e: RunEnv)
    requires History(ws, envs) && Completes(ws[|envs|], e)
    ensures History(ws + [RunOnce(ws[|envs|], e)], envs + [e])
  {
    hide Completes, RunOnce;
    var ws', envs' := ws + [RunOnce(ws[|envs|], e)], envs + [e];
    forall i | 0 <= i < |envs'|
      ensures IsRun(ws', envs', i)
    {
      assert i < |envs| ==> IsRun(ws, envs, i);
    }
  }

  lemma TwoRuns(e1: RunEnv, e2: RunEnv)
    requires PipeAfter(NEW_WORLD, e1).exited && PipeAfter(RunOnce(NEW_WORLD, e1), e2).exited
    ensures var w := RunOnce(NEW_WORLD, e1); History([NEW_WORLD, w, RunOnce(w, e2)], [e1, e2])
  {
    hide RunOnce, PipeAfter;
    var w := RunOnce(NEW_WORLD, e1);
    OneMoreRun([NEW_WORLD], [], e1);
    assert [NEW_WORLD] + [w] == [NEW_WORLD, w] && [] + [e1] == [e1];
    OneMoreRun([NEW_WORLD, w], [e1], e2);
    assert [NEW_WORLD, w] + [RunOnce(w, e2)] == [NEW_WORLD, w, RunOnce(w, e2)] && [e1] + [e2] == [e1, e2];
  }

  /**
   * A run that liquidates a deposit and then fails to save, or is killed before it has saved, and an
   * hour later one that saves: the deposit is liquidated twice, and sold twice if the exchange accepts.
   */
  lemma LiquidatedTwiceUnlessSaved(x: Exchange, fate: Fate) returns (ws: seq<World>, envs: seq<RunEnv>)
    requires !fate.Saved?
    ensures History(ws, envs) && |envs| == 2 && envs[0].fate == fate && envs[1].fate == Saved
    ensures !DistinctBy(KeyOfResult, ws[2].done)
    ensures (forall id :: x.sell(id).Ok?) ==> SoldIn(ws[0], envs[0], 5_000_000) && SoldIn(ws[1], envs[1], 5_000_000)
  {
    hide RunOnce, PipeAfter, Results, InLedger, SoldIn;
    var contents := PaidInBlock5([FIVE], []);
    var e1 := CompletedRun(NEW_WORLD, ALICE_ONLY, Seen(contents, 100, 0, None), x, 0, fate);
    var w := RunOnce(NEW_WORLD, e1);
    var e2 := CompletedRun(w, ALICE_ONLY, Seen(contents, 2_000, HOUR, None), x, HOUR, Saved);
    TwoRuns(e1, e2);
    ws, envs := [NEW_WORLD, w, RunOnce(w, e2)], [e1, e2];
    LiquidatedInBoth(e1, e2, HOUR, 2_000);
    if forall id :: x.sell(id).Ok? {
      LiquidatedIsSold(NEW_WORLD, e1, Base, ALICE, FIVE);
      LiquidatedIsSold(w, e2, Base, ALICE, FIVE);
    }
  }

  /** A run in which the second address gets nowhere records no frontier. */
  lemma StuckRecordsNothing(w: World, e: RunEnv, toAlice: seq<Transfer>, toBob: seq<Transfer>, height: Height,
        now: Time)
    requires ExampleRun(e, toAlice, toBob, height, now, Some(1)) && e.cfg == BOTH
    requires Base !in w.disk.lastSeen
    ensures Recorded(w, e, Base).None? && Base !in RunOnce(w, e).disk.lastSeen
  {
    var view := e.views(Base);
    FrontierAfter(w, e, Base);
    FetchMeaning(view.contents, BOB, view.scans(1), 0, height, ChunkSize(Base));
    if Recorded(w, e, Base).Some? {
      RecordedMeaning(e.cfg, w.disk, Base, view, Recorded(w, e, Base).value);
    }
  }

  /** What was liquidated at the first run's time is forgotten by a saved run 90 days on that sends nothing. */
  lemma ForgottenAfter90Days(w: World, e: RunEnv, k: string, p: BankPayment)
    requires e.fate.Saved? && Results(w, e) == [] && Holds(w.disk, k, p) && p.processedAt < e.prunedAt - RETENTION
    ensures p.txHash !in RunOnce(w, e).disk.processed
  {
    var outs := Discover(e.cfg, w.disk, e.views);
    MergedHashes(w.disk, outs, e.views, |outs|, "");
    assert Merged(w, e).bankPayments == w.disk.bankPayments;
    assert p.txHash in StaleHashes(Merged(w, e), e.prunedAt - RETENTION);
  }

  /** A saved run at time 0 leaves a record of each transaction it liquidated. */
  lemma RecordedAtFirst(e: RunEnv, stuck: Option<nat>) returns (k: string, p: BankPayment)
    requires ExampleRun(e, [FIVE], [], 100, 0, stuck) && e.fate.Saved? && PipeAfter(NEW_WORLD, e).exited
    requires InLedger(Results(NEW_WORLD, e), Base, ALICE, FIVE)
    ensures Holds(RunOnce(NEW_WORLD, e).disk, k, p) && p.txHash == HASH && p.processedAt == 0
  {
    hide PipeAfter, RunOnce;
    var i := KeyInLedger(Results(NEW_WORLD, e), Base, ALICE, FIVE);
    k := Results(NEW_WORLD, e)[i].payment.id;
    var last := LastIndex(Results(NEW_WORLD, e), k).value;
    p := Results(NEW_WORLD, e)[last].payment;
    ResultsAreOfBlock5(NEW_WORLD, e, [FIVE], [], 100, 0, stuck, Results(NEW_WORLD, e)[last]);
    HoldsAfter(NEW_WORLD, e, k, p);
  }

  /** A run that finds only a transaction in its dedup set liquidates nothing. */
  lemma NothingNew(w: World, e: RunEnv, height: Height, now: Time, stuck: Option<nat>)
    requires ExampleRun(e, [FIVE], [], height, now, stuck) && HASH in w.disk.processed
    ensures Results(w, e) == []
  {
    if Results(w, e) != [] {
      ResultsAreOfBlock5(w, e, [FIVE], [], height, now, stuck, Results(w, e)[0]);
    }
  }

  /** After a run and, 100 days on, another, both saved, with Bob's scan stuck, Alice's deposit is forgotten. */
  lemma ForgottenByPruning(e1: RunEnv, e2: RunEnv)
    requires PipeAfter(NEW_WORLD, e1).exited && PipeAfter(RunOnce(NEW_WORLD, e1), e2).exited
    requires e1.fate.Saved? && e2.fate.Saved? && e1.cfg == BOTH && e2.cfg == BOTH
    requires ExampleRun(e1, [FIVE], [], 100, 0, Some(1)) && ExampleRun(e2, [FIVE], [], 100, 100 * DAY, Some(1))
    ensures InLedger(Results(NEW_WORLD, e1), Base, ALICE, FIVE)
    ensures var w := RunOnce(RunOnce(NEW_WORLD, e1), e2);
            HASH !in w.disk.processed && Base !in w.disk.lastSeen
  {
    hide RunOnce, PipeAfter, Results, InLedger, Holds;
    var w := RunOnce(NEW_WORLD, e1);
    assert LeadsAt([FIVE], 0);
    NewIsLiquidated(NEW_WORLD, e1, [FIVE], [], 100, 0, Some(1), FIVE);
    ProcessedAfter(NEW_WORLD, e1, Base, ALICE, FIVE);
    StuckRecordsNothing(NEW_WORLD, e1, [FIVE], [], 100, 0);
    StuckRecordsNothing(w, e2, [FIVE], [], 100, 100 * DAY);
    var k, p := RecordedAtFirst(e1, Some(1));
    NothingNew(w, e2, 100, 100 * DAY, Some(1));
    ForgottenAfter90Days(w, e2, k, p);
  }

  /**
   * Three runs, all saved, over 100 days in which Bob's address never gets anywhere, so that the chain
   * has no frontier: pruning forgets Alice's deposit, and the scan from the start block finds it again.
   */
  lemma LiquidatedTwiceAfterPruning(x: Exchange) returns (ws: seq<World>, envs: seq<RunEnv>)
    ensures History(ws, envs) && |envs| == 3 && forall i :: 0 <= i < 3 ==> envs[i].fate == Saved
    ensures !DistinctBy(KeyOfResult, ws[3].done)
  {
    hide RunOnce, PipeAfter, Results, InLedger;
    var contents := PaidInBlock5([FIVE], []);
    var e1 := CompletedRun(NEW_WORLD, BOTH, Seen(contents, 100, 0, Some(1)), x, 0, Saved);
    var w1 := RunOnce(NEW_WORLD, e1);
    var e2 := CompletedRun(w1, BOTH, Seen(contents, 100, 100 * DAY, Some(1)), x, 100 * DAY, Saved);
    var w2 := RunOnce(w1, e2);
    var e3 := CompletedRun(w2, BOTH, Seen(contents, 100, 101 * DAY, Some(1)), x, 101 * DAY, Saved);
    var w3 := RunOnce(w2, e3);
    TwoRuns(e1, e2);
    OneMoreRun([NEW_WORLD, w1, w2], [e1, e2], e3);
    ws, envs := [NEW_WORLD, w1, w2] + [w3], [e1, e2] + [e3];
    ForgottenByPruning(e1, e2);
    assert LeadsAt([FIVE], 0);
    NewIsLiquidated(w2, e3, [FIVE], [], 100, 101 * DAY, Some(1), FIVE);
    DoneAfter(NEW_WORLD, e1);
    DoneAfter(w1, e2);
    DoneAfter(w2, e3);
    TwiceInLedger(w3.done, Results(NEW_WORLD, e1), Results(w1, e2), Results(w2, e3), Base, ALICE, FIVE);
  }

  // ---------------------------------------------------------------------------
  // Lost
  // ---------------------------------------------------------------------------

  /** A saved run of this world without outages puts block 5 behind the frontier. */
  lemma PassesBlock5(w: World, e: RunEnv, toAlice: seq<Transfer>, toBob: seq<Transfer>, height: Height, now: Time)
    requires ExampleRun(e, toAlice, toBob, height, now, None) && e.fate.Saved?
    ensures Passed(RunOnce(w, e), Base, 5)
  {
    assert Healthy(w, e, Base);
    HealthyRunAdvances(w, e, Base);
  }

  lemma OneRun(e: RunEnv)
    requires PipeAfter(NEW_WORLD, e).exited
    ensures History([NEW_WORLD, RunOnce(NEW_WORLD, e)], [e])
  {
    OneMoreRun([NEW_WORLD], [], e);
    assert [NEW_WORLD] + [RunOnce(NEW_WORLD, e)] == [NEW_WORLD, RunOnce(NEW_WORLD, e)] && [] + [e] == [e];
  }

  lemma OnlyFirstLiquidated(ws: seq<World>, envs: seq<RunEnv>)
    requires History(ws, envs) && |envs| == 1 && PipeAfter(NEW_WORLD, envs[0]).exited
    requires ExampleRun(envs[0], [FIVE, SEVEN], [], 100, 0, None)
    ensures Liquidated(ws[1], HASH) && !InLedger(ws[1].done, Base, ALICE, SEVEN)
  {
    hide PipeAfter, RunOnce, Completes, Results, InLedger, Liquidated;
    var e, canon := envs[0], OnBase(PaidInBlock5([FIVE, SEVEN], []));
    assert IsRun(ws, envs, 0);
    ExampleContents(e, [FIVE, SEVEN], [], 100, 0, None);
    assert IsTransfer(canon, Base, ALICE, 5, FIVE) && IsTransfer(canon, Base, ALICE, 5, SEVEN);
    assert LeadsAt([FIVE, SEVEN], 0);
    NewIsLiquidated(NEW_WORLD, e, [FIVE, SEVEN], [], 100, 0, None, FIVE);
    IsLiquidated(NEW_WORLD, e, Base, ALICE, FIVE);
    hide SeesFinalBlocks, Homes, Leads, IsTransfer, ExampleRun;
    SecondTransferNeverLiquidated(ws, envs, canon, InBlock5(), 1, Base, ALICE, 5, FIVE, SEVEN);
  }

  /** One transaction makes two transfers to one address: the second is passed, and not liquidated. */
  lemma SecondTransferLost(x: Exchange) returns (ws: seq<World>, envs: seq<RunEnv>)
    ensures History(ws, envs) && |envs| == 1 && envs[0].fate == Saved && Passed(ws[1], Base, 5)
    ensures var canon := OnBase(PaidInBlock5([FIVE, SEVEN], []));
            SeesFinalBlocks(canon, envs[0]) && IsTransfer(canon, Base, ALICE, 5, SEVEN)
    ensures Liquidated(ws[1], HASH) && !InLedger(ws[1].done, Base, ALICE, SEVEN)
  {
    var contents := PaidInBlock5([FIVE, SEVEN], []);
    hide RunOnce, PipeAfter, InLedger, Liquidated;
    var e := CompletedRun(NEW_WORLD, ALICE_ONLY, Seen(contents, 100, 0, None), x, 0, Saved);
    ws, envs := [NEW_WORLD, RunOnce(NEW_WORLD, e)], [e];
    OneRun(e);
    ExampleContents(e, [FIVE, SEVEN], [], 100, 0, None);
    PassesBlock5(NEW_WORLD, e, [FIVE, SEVEN], [], 100, 0);
    OnlyFirstLiquidated(ws, envs);
  }

  lemma IsLiquidated(w: World, e: RunEnv, c: Chain, a: string, t: Transfer)
    requires InLedger(Results(w, e), c, a, t)
    ensures Liquidated(RunOnce(w, e), t.txHash) && InLedger(RunOnce(w, e).done, c, a, t)
  {
    LedgerGrows(w, e, c, a, t);
    LiquidatedStays(w, e, t.txHash);
  }

  /** Bob's transfer is not covered by the run in which his scan fails. */
  lemma StuckCoversNothing(w: World, e: RunEnv, toAlice: seq<Transfer>, toBob: seq<Transfer>)
    requires ExampleRun(e, toAlice, toBob, 100, 0, Some(1)) && w.disk == EMPTY_STATE
    ensures !Covers(w, e, Base, BOB, 5)
  {
    var view := e.views(Base);
    FetchMeaning(view.contents, BOB, view.scans(1), 0, 100, ChunkSize(Base));
  }

  lemma BobNeverTaken(ws: seq<World>, envs: seq<RunEnv>)
    requires History(ws, envs) && |envs| == 2 && envs[0].fate == Saved && envs[1].fate == Saved
    requires PipeAfter(NEW_WORLD, envs[0]).exited
    requires ExampleRun(envs[0], [FIVE], [SEVEN], 100, 0, Some(1))
    requires ExampleRun(envs[1], [FIVE], [SEVEN], 2_000, HOUR, None)
    ensures InLedger(ws[2].done, Base, ALICE, FIVE) && !InLedger(ws[2].done, Base, BOB, SEVEN)
  {
    hide PipeAfter, RunOnce, Completes, Results, InLedger;
    var canon := OnBase(PaidInBlock5([FIVE], [SEVEN]));
    assert IsRun(ws, envs, 0) && IsRun(ws, envs, 1);
    ExampleContents(envs[0], [FIVE], [SEVEN], 100, 0, Some(1));
    ExampleContents(envs[1], [FIVE], [SEVEN], 2_000, HOUR, None);
    assert LeadsAt([FIVE], 0);
    NewIsLiquidated(NEW_WORLD, envs[0], [FIVE], [SEVEN], 100, 0, Some(1), FIVE);
    IsLiquidated(NEW_WORLD, envs[0], Base, ALICE, FIVE);
    LedgerGrows(ws[1], envs[1], Base, ALICE, FIVE);
    ProcessedAfter(NEW_WORLD, envs[0], Base, ALICE, FIVE);
    StuckCoversNothing(NEW_WORLD, envs[0], [FIVE], [SEVEN]);
    assert IsTransfer(canon, Base, BOB, 5, SEVEN);
    hide SeesFinalBlocks, Homes, Leads, IsTransfer, ExampleRun, Covers;
    LiquidatedItselfIff(ws, envs, canon, InBlock5(), 2, Base, BOB, 5, SEVEN);
  }

  /**
   * One transaction pays two watched addresses, and the scan of the second fails in the run in which the
   * first is liquidated: by the next run its hash counts as processed, and its transfer is passed for good.
   */
  lemma SecondAddressLost(x: Exchange) returns (ws: seq<World>, envs: seq<RunEnv>)
    ensures History(ws, envs) && |envs| == 2 && envs[0].fate == Saved && envs[1].fate == Saved
    ensures var canon := OnBase(PaidInBlock5([FIVE], [SEVEN]));
            && SeesFinalBlocks(canon, envs[0]) && SeesFinalBlocks(canon, envs[1])
            && IsTransfer(canon, Base, BOB, 5, SEVEN) && Monitors(envs[0].cfg, BOB) && Monitors(envs[1].cfg, BOB)
    ensures Passed(ws[2], Base, 5) && InLedger(ws[2].done, Base, ALICE, FIVE)
    ensures !InLedger(ws[2].done, Base, BOB, SEVEN)
  {
    var contents := PaidInBlock5([FIVE], [SEVEN]);
    hide RunOnce, PipeAfter, InLedger;
    var e1 := CompletedRun(NEW_WORLD, BOTH, Seen(contents, 100, 0, Some(1)), x, 0, Saved);
    var w := RunOnce(NEW_WORLD, e1);
    var e2 := CompletedRun(w, BOTH, Seen(contents, 2_000, HOUR, None), x, HOUR, Saved);
    TwoRuns(e1, e2);
    ws, envs := [NEW_WORLD, w, RunOnce(w, e2)], [e1, e2];
    ExampleContents(e1, [FIVE], [SEVEN], 100, 0, Some(1));
    ExampleContents(e2, [FIVE], [SEVEN], 2_000, HOUR, None);
    PassesBlock5(w, e2, [FIVE], [SEVEN], 2_000, HOUR);
    assert BOTH.addresses[1].address == BOB;
    BobNeverTaken(ws, envs);
  }

  /** After one saved run, its records are under the key that both transactions share. */
  lemma HeldUnderOneKey(e: RunEnv, k: string)
    requires ExampleRun(e, [FIVE, OTHER], [], 100, 0, None) && e.fate.Saved?
    requires k in RunOnce(NEW_WORLD, e).disk.bankPayments
    ensures k == MakeId(0, HASH)
  {
    hide Results, RunOnce;
    HoldsAfter(NEW_WORLD, e, k, RunOnce(NEW_WORLD, e).disk.bankPayments[k]);
    var r := Results(NEW_WORLD, e)[LastIndex(Results(NEW_WORLD, e), k).value];
    ResultsAreOfBlock5(NEW_WORLD, e, [FIVE, OTHER], [], 100, 0, None, r);
    assert Prefix(HASH) == Prefix(OTHER_HASH);
  }

  /** Two deposits of one day whose hashes begin alike: both are liquidated, and one record is left. */
  lemma RecordLostInOneRun(x: Exchange) returns (ws: seq<World>, envs: seq<RunEnv>)
    ensures History(ws, envs) && |envs| == 1 && envs[0].fate == Saved
    ensures InLedger(ws[1].done, Base, ALICE, FIVE) && InLedger(ws[1].done, Base, ALICE, OTHER)
    ensures var payments := ws[1].disk.bankPayments;
            forall j, k :: j in payments && k in payments ==> j == k
  {
    var contents := PaidInBlock5([FIVE, OTHER], []);
    hide RunOnce, PipeAfter, Results, InLedger;
    var e := CompletedRun(NEW_WORLD, ALICE_ONLY, Seen(contents, 100, 0, None), x, 0, Saved);
    ws, envs := [NEW_WORLD, RunOnce(NEW_WORLD, e)], [e];
    OneRun(e);
    assert LeadsAt([FIVE, OTHER], 0) && LeadsAt([FIVE, OTHER], 1);
    NewIsLiquidated(NEW_WORLD, e, [FIVE, OTHER], [], 100, 0, None, FIVE);
    NewIsLiquidated(NEW_WORLD, e, [FIVE, OTHER], [], 100, 0, None, OTHER);
    IsLiquidated(NEW_WORLD, e, Base, ALICE, FIVE);
    IsLiquidated(NEW_WORLD, e, Base, ALICE, OTHER);
    forall k | k in ws[1].disk.bankPayments
      ensures k == MakeId(0, HASH)
    {
      HeldUnderOneKey(e, k);
    }
  }

  /** One transaction makes the same transfer twice: in a saved run that passes both, one is liquidated. */
  lemma RepeatedTransferLost(x: Exchange) returns (ws: seq<World>, envs: seq<RunEnv>)
    ensures History(ws, envs) && |envs| == 1 && envs[0].fate == Saved && Passed(ws[1], Base, 5)
    ensures OnBase(PaidInBlock5([FIVE, FIVE], []))(Base)(ALICE, 5) == [FIVE, FIVE]
            && SeesFinalBlocks(OnBase(PaidInBlock5([FIVE, FIVE], [])), envs[0])
    ensures InLedger(ws[1].done, Base, ALICE, FIVE) && DistinctBy(KeyOfResult, ws[1].done)
  {
    var contents := PaidInBlock5([FIVE, FIVE], []);
    hide RunOnce, PipeAfter, Results, InLedger;
    var e := CompletedRun(NEW_WORLD, ALICE_ONLY, Seen(contents, 100, 0, None), x, 0, Saved);
    ws, envs := [NEW_WORLD, RunOnce(NEW_WORLD, e)], [e];
    OneRun(e);
    ExampleContents(e, [FIVE, FIVE], [], 100, 0, None);
    PassesBlock5(NEW_WORLD, e, [FIVE, FIVE], [], 100, 0);
    assert LeadsAt([FIVE, FIVE], 0);
    NewIsLiquidated(NEW_WORLD, e, [FIVE, FIVE], [], 100, 0, None, FIVE);
    IsLiquidated(NEW_WORLD, e, Base, ALICE, FIVE);
    DoneAfter(NEW_WORLD, e);
    ResultsDistinct(NEW_WORLD, e);
    assert [] + Results(NEW_WORLD, e) == Results(NEW_WORLD, e);
  }

  /** Alice's run moves the chain's frontier past block 5. */
  lemma FrontierPastBlock5(e: RunEnv)
    requires ExampleRun(e, [], [SEVEN], 100, 0, None) && e.fate.Saved?
    ensures Base in RunOnce(NEW_WORLD, e).disk.lastSeen && 5 < RunOnce(NEW_WORLD, e).disk.lastSeen[Base].block
  {
    assert Healthy(NEW_WORLD, e, Base);
    HealthyRunAdvances(NEW_WORLD, e, Base);
  }

  lemma BobAddedTooLate(e1: RunEnv, e2: RunEnv)
    requires ExampleRun(e1, [], [SEVEN], 100, 0, None) && ExampleRun(e2, [], [SEVEN], 2_000, HOUR, None)
    requires e1.cfg == ALICE_ONLY && e1.fate.Saved?
    ensures !SendsHash(RunOnce(NEW_WORLD, e1), e2, HASH)
  {
    hide RunOnce, Sends;
    var canon := OnBase(PaidInBlock5([], [SEVEN]));
    FrontierPastBlock5(e1);
    ExampleContents(e2, [], [SEVEN], 2_000, HOUR, None);
    if SendsHash(RunOnce(NEW_WORLD, e1), e2, HASH) {
      SentIsNew(RunOnce(NEW_WORLD, e1), e2, canon, InBlock5(), HASH);
    }
  }

  lemma BobNotInLedger(ws: seq<World>, envs: seq<RunEnv>)
    requires History(ws, envs) && |envs| == 2 && envs[0].cfg == ALICE_ONLY && envs[0].fate.Saved?
    requires ExampleRun(envs[0], [], [SEVEN], 100, 0, None) && ExampleRun(envs[1], [], [SEVEN], 2_000, HOUR, None)
    ensures !InLedger(ws[2].done, Base, BOB, SEVEN)
  {
    hide RunOnce, Completes, Results, InLedger;
    var canon := OnBase(PaidInBlock5([], [SEVEN]));
    assert IsRun(ws, envs, 0);
    FrontierPastBlock5(envs[0]);
    ExampleContents(envs[0], [], [SEVEN], 100, 0, None);
    ExampleContents(envs[1], [], [SEVEN], 2_000, HOUR, None);
    assert IsTransfer(canon, Base, BOB, 5, SEVEN);
    assert !Covers(ws[0], envs[0], Base, BOB, 5);
    assert !Covers(ws[1], envs[1], Base, BOB, 5);
    hide SeesFinalBlocks, Homes, Leads, IsTransfer, ExampleRun, Covers;
    LiquidatedItselfIff(ws, envs, canon, InBlock5(), 2, Base, BOB, 5, SEVEN);
  }

  /**
   * Bob's address is added to the configuration after a run that watched only Alice's. His deposit in
   * block 5, after the configured start block 0, is behind the chain's frontier and is never sent.
   */
  lemma AddedAddressNotScanned(x: Exchange) returns (ws: seq<World>, envs: seq<RunEnv>)
    ensures History(ws, envs) && |envs| == 2 && envs[0].fate == Saved && envs[1].fate == Saved
    ensures !Monitors(envs[0].cfg, BOB) && Watches(envs[1], Base, BOB, 0) && Base in envs[1].cfg.startBlocks
    ensures var canon := OnBase(PaidInBlock5([], [SEVEN]));
            && SeesFinalBlocks(canon, envs[0]) && SeesFinalBlocks(canon, envs[1])
            && IsTransfer(canon, Base, BOB, 5, SEVEN)
    ensures Passed(ws[2], Base, 5) && !SendsHash(ws[1], envs[1], HASH) && !InLedger(ws[2].done, Base, BOB, SEVEN)
  {
    var contents := PaidInBlock5([], [SEVEN]);
    hide RunOnce, PipeAfter, InLedger, SendsHash;
    var e1 := CompletedRun(NEW_WORLD, ALICE_ONLY, Seen(contents, 100, 0, None), x, 0, Saved);
    var w := RunOnce(NEW_WORLD, e1);
    var e2 := CompletedRun(w, BOTH, Seen(contents, 2_000, HOUR, None), x, HOUR, Saved);
    TwoRuns(e1, e2);
    ws, envs := [NEW_WORLD, w, RunOnce(w, e2)], [e1, e2];
    ExampleContents(e1, [], [SEVEN], 100, 0, None);
    ExampleContents(e2, [], [SEVEN], 2_000, HOUR, None);
    PassesBlock5(w, e2, [], [SEVEN], 2_000, HOUR);
    assert BOTH.addresses[1].address == BOB;
    BobAddedTooLate(e1, e2);
    BobNotInLedger(ws, envs);
  }

  /** A record held after a run that found nothing new was held before it, and is less than 90 days old. */
  lemma OldRecordsGone(e1: RunEnv, e2: RunEnv, k: string, p: BankPayment)
    requires ExampleRun(e1, [FIVE], [], 100, 0, None) && ExampleRun(e2, [FIVE], [], 2_000, 100 * DAY, None)
    requires e1.fate.Saved? && e2.fate.Saved? && HASH in RunOnce(NEW_WORLD, e1).disk.processed
    ensures !Holds(RunOnce(RunOnce(NEW_WORLD, e1), e2).disk, k, p)
  {
    hide RunOnce, Results, Holds;
    var w := RunOnce(NEW_WORLD, e1);
    NothingNew(w, e2, 2_000, 100 * DAY, None);
    HoldsAfter(w, e2, k, p);
    HoldsAfter(NEW_WORLD, e1, k, p);
    NothingHeldAtFirst(k, p);
    if Writes(NEW_WORLD, e1, k, p) {
      ResultsAreOfBlock5(NEW_WORLD, e1, [FIVE], [], 100, 0, None,
          Results(NEW_WORLD, e1)[LastIndex(Results(NEW_WORLD, e1), k).value]);
    }
  }

  /** A deposit is liquidated and recorded, and 100 days and a saved run later the record is gone. */
  lemma RecordPruned(x: Exchange) returns (ws: seq<World>, envs: seq<RunEnv>)
    ensures History(ws, envs) && |envs| == 2 && envs[0].fate == Saved && envs[1].fate == Saved
    ensures InLedger(ws[1].done, Base, ALICE, FIVE)
    ensures ws[1].disk.bankPayments != map[] && ws[2].disk.bankPayments == map[]
  {
    var contents := PaidInBlock5([FIVE], []);
    hide RunOnce, PipeAfter, Results, InLedger;
    var e1 := CompletedRun(NEW_WORLD, ALICE_ONLY, Seen(contents, 100, 0, None), x, 0, Saved);
    var w := RunOnce(NEW_WORLD, e1);
    var e2 := CompletedRun(w, ALICE_ONLY, Seen(contents, 2_000, 100 * DAY, None), x, 100 * DAY, Saved);
    TwoRuns(e1, e2);
    ws, envs := [NEW_WORLD, w, RunOnce(w, e2)], [e1, e2];
    assert LeadsAt([FIVE], 0);
    NewIsLiquidated(NEW_WORLD, e1, [FIVE], [], 100, 0, None, FIVE);
    IsLiquidated(NEW_WORLD, e1, Base, ALICE, FIVE);
    ProcessedAfter(NEW_WORLD, e1, Base, ALICE, FIVE);
    var key, p := RecordedAtFirst(e1, None);
    forall k | k in ws[2].disk.bankPayments
      ensures false
    {
      OldRecordsGone(e1, e2, k, ws[2].disk.bankPayments[k]);
    }
  }
}
