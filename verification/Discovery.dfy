/** Deposit discovery: what one pass finds on each chain, and which receives it hands to the worker. */
module Discovery {
  import opened Types
  import opened Seqs
  import opened Explorer
  import opened ChainResults

  /** Block heights a scan can end at; at 2^64 - 1 the chunk loop need not end (Explorer.HaltsIff). */
  type Height = n: u64 | n < 0xFFFF_FFFF_FFFF_FFFF

  /** One chain as one run meets it: its node's answers, its contents and the clock readings. */
  datatype ChainView = ChainView(
    height: Option<Height>,
    heightCheckedAt: Time,
    contents: Contents,
    scans: nat -> ScanEnv,
    mergedAt: Time)

  type Views = Chain -> ChainView

  /** No poll recorded, or the last recorded one is more than six hours old. */
  predicate IsChainStale(st: State, chain: Chain, now: Time) {
    chain in st.lastSeen ==> now - st.lastSeen[chain].updatedAt > CHAIN_STALE_THRESHOLD
  }

  /** The persisted frontier, else the configured start block, else nothing to scan from. */
  function SinceBlock(cfg: Config, st: State, chain: Chain): Option<u64> {
    if chain in st.lastSeen then Some(st.lastSeen[chain].block)
    else if chain in cfg.startBlocks then Some(cfg.startBlocks[chain])
    else None
  }

  /** What decides whether a receive is eligible, apart from the receives of its own scan. */
  datatype Filter = Filter(processed: set<string>, currentBlock: u64, required: u64)
  {
    predicate Passes(r: UsdcReceive) {
      && r.amount >= USDC_DUST_THRESHOLD
      && r.txHash !in processed
      && SatSub(currentBlock, r.block) >= required
    }

    /** Eligible, and no earlier receive of the scan with the same hash is. */
    predicate IsFirst(rs: seq<UsdcReceive>, k: nat)
      requires k < |rs|
    {
      Passes(rs[k]) && forall j :: 0 <= j < k && Passes(rs[j]) ==> rs[j].txHash != rs[k].txHash
    }
  }

  function DepositOf(ac: AddressConfig, chain: Chain, r: UsdcReceive, now: Time): EligibleDeposit {
    EligibleDeposit(ac.address, chain, r.txHash, r.amount, ac.paymentMethod, r.fetchedAt, now)
  }

  function HashOf(d: EligibleDeposit): string {
    d.txHash
  }

  /** The deposits to send for the first n receives of a scan, in order. */
  function Select(ac: AddressConfig, chain: Chain, f: Filter, rs: seq<UsdcReceive>, clock: nat -> Time,
        n: nat): seq<EligibleDeposit>
    requires n <= |rs|
  {
    if n == 0 then []
    else
      Select(ac, chain, f, rs, clock, n - 1)
      + if f.IsFirst(rs, n - 1) then [DepositOf(ac, chain, rs[n - 1], clock(n - 1))] else []
  }

  datatype ScanOutcome = ScanOutcome(result: ChainResult, sends: seq<EligibleDeposit>)

  /** What the scan of one address must report and send. */
  function ScanSpec(cfg: Config, st: State, chain: Chain, ac: AddressConfig, since: u64, current: Height,
        contents: Contents, scan: ScanEnv): ScanOutcome {
    match Fetch(contents, ac.address, scan, since, current, ChunkSize(chain))
    case Err(_) =>
      ScanOutcome(ChainResult([], None, if IsChainStale(st, chain, scan.checkedAt) then
          [FetchFailed(chain, ac.address)] else []), [])
    case Ok(fetch) =>
      var required := cfg.ConfirmationsFor(chain);
      var sends := Select(ac, chain, Filter(st.processed, current, required), fetch.receives, scan.clock,
          |fetch.receives|);
      ScanOutcome(ChainResult(Map(HashOf, sends), Some(Min(fetch.frontier, SatSub(current, required))), []), sends)
  }

  /** The loop over the receives: the running dedup set picks exactly the first eligible receive of every hash. */
  method SendEligible(ac: AddressConfig, chain: Chain, f: Filter, rs: seq<UsdcReceive>, clock: nat -> Time)
    returns (sends: seq<EligibleDeposit>, processed: seq<string>)
    ensures sends == Select(ac, chain, f, rs, clock, |rs|)
    ensures processed == Map(HashOf, sends)
  {
    var scanDedup: set<string> := {};
    sends, processed := [], [];
    for i := 0 to |rs|
      invariant forall h :: h in scanDedup <==> exists j :: 0 <= j < i && f.Passes(rs[j]) && rs[j].txHash == h
      invariant sends == Select(ac, chain, f, rs, clock, i)
      invariant processed == Map(HashOf, sends)
    {
      if f.Passes(rs[i]) && rs[i].txHash !in scanDedup {
        sends := sends + [DepositOf(ac, chain, rs[i], clock(i))];
        processed := processed + [rs[i].txHash];
        scanDedup := scanDedup + {rs[i].txHash};
      }
    }
  }

  /** No provider is asked for more than it allows: 1,000 blocks on Monad, 10,000 elsewhere. */
  predicate WithinLimit(chain: Chain, q: Request) {
    q.from <= q.upto < q.from + if chain == Monad then 1_000 else 10_000
  }

  lemma RequestsWithinLimit(calls: seq<Request>, since: u64, to: u64, chain: Chain)
    requires Tiles(calls, since, to, ChunkSize(chain))
    requires forall k :: 0 <= k < |calls| ==> calls[k].from <= to
    ensures forall k :: 0 <= k < |calls| ==> WithinLimit(chain, calls[k])
  {
  }

  /** Scan one address: fetch, filter and send, then cap the frontier at the confirmation floor. */
  method AddressScan(cfg: Config, st: State, chain: Chain, ac: AddressConfig, since: u64, current: Height,
        contents: Contents, scan: ScanEnv)
    returns (outcome: ScanOutcome, calls: seq<Request>)
    ensures outcome == ScanSpec(cfg, st, chain, ac, since, current, contents, scan)
    ensures forall k :: 0 <= k < |calls| ==> WithinLimit(chain, calls[k])
  {
    HaltsIff(scan.down, since, current, ChunkSize(chain));
    var fetched: Result<FetchOk>;
    fetched, calls := FetchUsdcReceives(contents, ac.address, scan, since, current, ChunkSize(chain));
    RequestsWithinLimit(calls, since, current, chain);
    if fetched.Err? {
      var errors := if IsChainStale(st, chain, scan.checkedAt) then [FetchFailed(chain, ac.address)] else [];
      return ScanOutcome(ChainResult([], None, errors), []), calls;
    }
    var required := cfg.ConfirmationsFor(chain);
    var sends, processed := SendEligible(ac, chain, Filter(st.processed, current, required), fetched.value.receives,
        scan.clock);
    var floor := SatSub(current, required);
    outcome := ScanOutcome(ChainResult(processed, Some(Min(fetched.value.frontier, floor)), []), sends);
  }

  datatype ChainOutcome = ChainOutcome(result: ChainResult, scans: seq<ScanOutcome>)

  function ResultOf(s: ScanOutcome): ChainResult {
    s.result
  }

  function SendsOf(s: ScanOutcome): seq<EligibleDeposit> {
    s.sends
  }

  function RunChain(cfg: Config, st: State, chain: Chain, view: ChainView): ChainOutcome {
    match view.height
    case None =>
      var errors := if IsChainStale(st, chain, view.heightCheckedAt) then [HeightFailed(chain)] else [];
      ChainOutcome(ChainResult([], None, errors), [])
    case Some(current) =>
      match SinceBlock(cfg, st, chain)
      case None => ChainOutcome(ChainResult([], None, []), [])
      case Some(since) =>
        var scans := seq(|cfg.addresses|, i requires 0 <= i < |cfg.addresses| =>
          ScanSpec(cfg, st, chain, cfg.addresses[i], since, current, view.contents, view.scans(i)));
        ChainOutcome(Total(Map(ResultOf, scans)), scans)
  }

  /** These are the scans of the chain's first addresses. */
  ghost predicate ScansDone(cfg: Config, st: State, chain: Chain, view: ChainView, scans: seq<ScanOutcome>)
    requires view.height.Some? && SinceBlock(cfg, st, chain).Some?
  {
    && |scans| <= |cfg.addresses|
    && forall i :: 0 <= i < |scans| ==>
         scans[i] == ScanSpec(cfg, st, chain, cfg.addresses[i], SinceBlock(cfg, st, chain).value, view.height.value,
             view.contents, view.scans(i))
  }

  lemma OneMoreScan(cfg: Config, st: State, chain: Chain, view: ChainView, scans: seq<ScanOutcome>, scan: ScanOutcome)
    requires view.height.Some? && SinceBlock(cfg, st, chain).Some?
    requires ScansDone(cfg, st, chain, view, scans) && |scans| < |cfg.addresses|
    requires scan == ScanSpec(cfg, st, chain, cfg.addresses[|scans|], SinceBlock(cfg, st, chain).value,
            view.height.value, view.contents, view.scans(|scans|))
    ensures ScansDone(cfg, st, chain, view, scans + [scan])
    ensures Total(Map(ResultOf, scans + [scan])) == Total(Map(ResultOf, scans)).Add(scan.result)
  {
    hide ScanSpec;
    assert Map(ResultOf, scans + [scan])[..|scans|] == Map(ResultOf, scans);
  }

  lemma AllScansDone(cfg: Config, st: State, chain: Chain, view: ChainView, scans: seq<ScanOutcome>)
    requires view.height.Some? && SinceBlock(cfg, st, chain).Some?
    requires ScansDone(cfg, st, chain, view, scans) && |scans| == |cfg.addresses|
    ensures RunChain(cfg, st, chain, view) == ChainOutcome(Total(Map(ResultOf, scans)), scans)
  {
    assert RunChain(cfg, st, chain, view).scans == scans;
  }

  /** Check one chain: learn its height and the block to restart from, scan every address, add the results up. */
  method CheckChain(cfg: Config, st: State, chain: Chain, view: ChainView) returns (outcome: ChainOutcome)
    ensures outcome == RunChain(cfg, st, chain, view)
  {
    if view.height.None? {
      var errors := if IsChainStale(st, chain, view.heightCheckedAt) then [HeightFailed(chain)] else [];
      return ChainOutcome(ChainResult([], None, errors), []);
    }
    var since := SinceBlock(cfg, st, chain);
    if since.None? {
      return ChainOutcome(ChainResult([], None, []), []);
    }
    var scans: seq<ScanOutcome>, total := [], EMPTY;
    for i := 0 to |cfg.addresses|
      invariant |scans| == i && ScansDone(cfg, st, chain, view, scans) && total == Total(Map(ResultOf, scans))
    {
      hide RunChain, ScanSpec, ScansDone, Total, SinceBlock;
      var scan, _ := AddressScan(cfg, st, chain, cfg.addresses[i], since.value, view.height.value, view.contents,
          view.scans(i));
      OneMoreScan(cfg, st, chain, view, scans, scan);
      scans, total := scans + [scan], total.Add(scan.result);
    }
    AllScansDone(cfg, st, chain, view, scans);
    outcome := ChainOutcome(total, scans);
  }

  /** All chains, in visiting order. */
  function Discover(cfg: Config, st: State, views: Views): (outs: seq<ChainOutcome>)
    ensures |outs| == |ALL_CHAINS|
    ensures forall i :: 0 <= i < |outs| ==> outs[i] == RunChain(cfg, st, ALL_CHAINS[i], views(ALL_CHAINS[i]))
  {
    seq(|ALL_CHAINS|, i requires 0 <= i < |ALL_CHAINS| => RunChain(cfg, st, ALL_CHAINS[i], views(ALL_CHAINS[i])))
  }

  /** The lists of deposits that the concurrent address scans send, one list per scan. */
  function SendLists(outs: seq<ChainOutcome>): seq<seq<EligibleDeposit>> {
    if outs == [] then [] else Map(SendsOf, outs[0].scans) + SendLists(outs[1..])
  }

  /** Everything one pass sends. */
  function AllSends(outs: seq<ChainOutcome>): seq<EligibleDeposit> {
    Concat(SendLists(outs))
  }

  // ---------------------------------------------------------------------------
  // What is sent
  // ---------------------------------------------------------------------------

  /** The depth filter and the frontier cap draw the same line, in spite of saturating subtraction. */
  lemma FloorAgrees(current: u64, required: u64, b: u64)
    requires b <= current
    ensures SatSub(current, b) >= required <==> b + required <= current
    ensures b < SatSub(current, required) ==> b + required <= current
    ensures b + required <= current ==> b <= SatSub(current, required)
  {
  }

  lemma {:induction false} SelectMeaning(ac: AddressConfig, chain: Chain, f: Filter, rs: seq<UsdcReceive>,
        clock: nat -> Time, n: nat, d: EligibleDeposit)
    requires n <= |rs|
    ensures d in Select(ac, chain, f, rs, clock, n)
       <==> exists k :: 0 <= k < n && f.IsFirst(rs, k) && d == DepositOf(ac, chain, rs[k], clock(k))
  {
    if n > 0 {
      SelectMeaning(ac, chain, f, rs, clock, n - 1, d);
    }
  }

  lemma {:induction false} SelectDistinct(ac: AddressConfig, chain: Chain, f: Filter, rs: seq<UsdcReceive>,
        clock: nat -> Time, n: nat)
    requires n <= |rs|
    ensures DistinctBy(HashOf, Select(ac, chain, f, rs, clock, n))
  {
    if n > 0 {
      var before := Select(ac, chain, f, rs, clock, n - 1);
      SelectDistinct(ac, chain, f, rs, clock, n - 1);
      forall i | 0 <= i < |before| && f.IsFirst(rs, n - 1)
        ensures HashOf(before[i]) != rs[n - 1].txHash
      {
        SelectMeaning(ac, chain, f, rs, clock, n - 1, before[i]);
      }
    }
  }

  /** The first eligible receive with a given hash. */
  lemma {:induction false} FirstOfHash(f: Filter, rs: seq<UsdcReceive>, k: nat) returns (first: nat)
    requires k < |rs| && f.Passes(rs[k])
    ensures first <= k && f.IsFirst(rs, first) && rs[first].txHash == rs[k].txHash
  {
    if f.IsFirst(rs, k) {
      first := k;
    } else {
      var j :| 0 <= j < k && f.Passes(rs[j]) && rs[j].txHash == rs[k].txHash;
      first := FirstOfHash(f, rs, j);
    }
  }

  /** A non-dust transfer that sits in block b, which is deep enough to be final at this height. */
  ghost predicate FinalTransfer(contents: Contents, address: string, b: u64, t: Transfer, current: u64, required: u64) {
    && t in contents(address, b)
    && t.amount >= USDC_DUST_THRESHOLD
    && b + required <= current
  }

  /** The transfers with hash h that a scan of since .. frontier may send. */
  ghost predicate Sendable(contents: Contents, address: string, h: string, since: u64, frontier: u64, current: u64,
        required: u64) {
    exists b: u64, t: Transfer :: since <= b <= frontier && t.txHash == h
        && FinalTransfer(contents, address, b, t, current, required)
  }

  /** Everything a scan sends comes from the chain, from a final block in the scanned range. */
  lemma SentComesFromChain(cfg: Config, st: State, chain: Chain, ac: AddressConfig, since: u64, current: Height,
        contents: Contents, scan: ScanEnv, d: EligibleDeposit)
    returns (b: u64)
    requires d in ScanSpec(cfg, st, chain, ac, since, current, contents, scan).sends
    ensures Fetch(contents, ac.address, scan, since, current, ChunkSize(chain)).Ok?
    ensures since <= b <= Fetch(contents, ac.address, scan, since, current, ChunkSize(chain)).value.frontier <= current
    ensures FinalTransfer(contents, ac.address, b, Transfer(d.txHash, d.amount), current, cfg.ConfirmationsFor(chain))
    ensures d.chain == chain && d.address == ac.address && d.paymentMethod == ac.paymentMethod
    ensures d.depositedAt == scan.fetchedAt && exists k :: d.processedAt == scan.clock(k)
    ensures d.txHash !in st.processed
  {
    var required := cfg.ConfirmationsFor(chain);
    var f := Filter(st.processed, current, required);
    FetchMeaning(contents, ac.address, scan, since, current, ChunkSize(chain));
    var fetch := Fetch(contents, ac.address, scan, since, current, ChunkSize(chain)).value;
    var rs := fetch.receives;
    SelectMeaning(ac, chain, f, rs, scan.clock, |rs|, d);
    var k :| 0 <= k < |rs| && f.IsFirst(rs, k) && d == DepositOf(ac, chain, rs[k], scan.clock(k));
    assert since <= current;
    assert rs[k] in rs;
    ReceivesMeaning(contents, ac.address, since, fetch.frontier, scan.fetchedAt, rs[k]);
    b := rs[k].block;
    FloorAgrees(current, required, b);
  }

  /** A hash is sent by a scan exactly when it is new and a final transfer of the scanned range carries it. */
  lemma SentIff(cfg: Config, st: State, chain: Chain, ac: AddressConfig, since: u64, current: Height,
        contents: Contents, scan: ScanEnv, h: string)
    ensures (exists d :: d in ScanSpec(cfg, st, chain, ac, since, current, contents, scan).sends && d.txHash == h)
       <==> && h !in st.processed
            && var fetch := Fetch(contents, ac.address, scan, since, current, ChunkSize(chain));
            && fetch.Ok?
            && Sendable(contents, ac.address, h, since, fetch.value.frontier, current, cfg.ConfirmationsFor(chain))
  {
    var required := cfg.ConfirmationsFor(chain);
    var f := Filter(st.processed, current, required);
    var out := ScanSpec(cfg, st, chain, ac, since, current, contents, scan);
    if d :| d in out.sends && d.txHash == h {
      var b := SentComesFromChain(cfg, st, chain, ac, since, current, contents, scan, d);
    }
    var fetched := Fetch(contents, ac.address, scan, since, current, ChunkSize(chain));
    if fetched.Ok? && h !in st.processed
        && Sendable(contents, ac.address, h, since, fetched.value.frontier, current, required) {
      var b: u64, t: Transfer :| since <= b <= fetched.value.frontier && t.txHash == h
          && FinalTransfer(contents, ac.address, b, t, current, required);
      FetchMeaning(contents, ac.address, scan, since, current, ChunkSize(chain));
      var rs := fetched.value.receives;
      var r := UsdcReceive(t.txHash, t.amount, b, scan.fetchedAt);
      ReceivesMeaning(contents, ac.address, since, fetched.value.frontier, scan.fetchedAt, r);
      var k :| 0 <= k < |rs| && rs[k] == r;
      FloorAgrees(current, required, b);
      var first := FirstOfHash(f, rs, k);
      SelectMeaning(ac, chain, f, rs, scan.clock, |rs|, DepositOf(ac, chain, rs[first], scan.clock(first)));
    }
  }

  /** Entry m of a block is the first of its non-dust transfers with that hash. */
  ghost predicate LeadsAt(ts: seq<Transfer>, m: nat)
    requires m < |ts|
  {
    && ts[m].amount >= USDC_DUST_THRESHOLD
    && forall j :: 0 <= j < m && ts[j].amount >= USDC_DUST_THRESHOLD ==> ts[j].txHash != ts[m].txHash
  }

  /** Of the non-dust transfers of its transaction in this block, t comes first. */
  ghost predicate Leads(ts: seq<Transfer>, t: Transfer) {
    exists m :: 0 <= m < |ts| && ts[m] == t && LeadsAt(ts, m)
  }

  /** No final non-dust transfer to the address outside block b has hash h. */
  ghost predicate OnlyInBlock(contents: Contents, address: string, h: string, b: u64, current: u64, required: u64) {
    forall b': u64, t: Transfer ::
      FinalTransfer(contents, address, b', t, current, required) && t.txHash == h ==> b' == b
  }

  /** The scan got to block b, and b is final at its height. */
  predicate Reaches(cfg: Config, chain: Chain, ac: AddressConfig, since: u64, current: Height, contents: Contents,
        scan: ScanEnv, b: u64) {
    var fetched := Fetch(contents, ac.address, scan, since, current, ChunkSize(chain));
    fetched.Ok? && since <= b <= fetched.value.frontier && b + cfg.ConfirmationsFor(chain) <= current
  }

  /** The scan sends transfer t itself, and not just another one of its transaction. */
  ghost predicate SendsItself(cfg: Config, st: State, chain: Chain, ac: AddressConfig, since: u64, current: Height,
        contents: Contents, scan: ScanEnv, t: Transfer) {
    exists d :: d in ScanSpec(cfg, st, chain, ac, since, current, contents, scan).sends
        && Transfer(d.txHash, d.amount) == t
  }

  /** The scan's receives hold transfer t in a place where it is sent. */
  ghost predicate ItselfFirst(f: Filter, rs: seq<UsdcReceive>, t: Transfer) {
    exists k :: 0 <= k < |rs| && f.IsFirst(rs, k) && Transfer(rs[k].txHash, rs[k].amount) == t
  }

  lemma SelectedItself(ac: AddressConfig, chain: Chain, f: Filter, rs: seq<UsdcReceive>, clock: nat -> Time,
        t: Transfer)
    ensures (exists d :: d in Select(ac, chain, f, rs, clock, |rs|) && Transfer(d.txHash, d.amount) == t)
       <==> ItselfFirst(f, rs, t)
  {
    if d :| d in Select(ac, chain, f, rs, clock, |rs|) && Transfer(d.txHash, d.amount) == t {
      SelectMeaning(ac, chain, f, rs, clock, |rs|, d);
    }
    if k :| 0 <= k < |rs| && f.IsFirst(rs, k) && Transfer(rs[k].txHash, rs[k].amount) == t {
      SelectMeaning(ac, chain, f, rs, clock, |rs|, DepositOf(ac, chain, rs[k], clock(k)));
    }
  }

  /** An eligible receive is in the one block its hash is in. */
  lemma EligibleInBlock(contents: Contents, address: string, since: u64, frontier: u64, at: Time, b: u64, f: Filter,
        rs: seq<UsdcReceive>, k: nat)
    requires frontier <= f.currentBlock < U64_MAX && rs == Receives(contents, address, since, frontier, at)
    requires k < |rs| && f.Passes(rs[k])
    requires OnlyInBlock(contents, address, rs[k].txHash, b, f.currentBlock, f.required)
    ensures rs[k].block == b && since <= b <= frontier && b + f.required <= f.currentBlock
  {
    assert rs[k] in rs;
    ReceivesMeaning(contents, address, since, frontier, at, rs[k]);
    FloorAgrees(f.currentBlock, f.required, rs[k].block);
    assert FinalTransfer(contents, address, rs[k].block, Transfer(rs[k].txHash, rs[k].amount), f.currentBlock,
        f.required);
  }

  /** Where the receives of block b are in a scan: those of earlier blocks before, those of later ones after. */
  lemma BlockPosition(contents: Contents, address: string, since: u64, frontier: u64, at: Time, b: u64)
    returns (pre: seq<UsdcReceive>, post: seq<UsdcReceive>)
    requires since <= b <= frontier < U64_MAX
    ensures Receives(contents, address, since, frontier, at) == pre + Stamp(contents(address, b), b, at) + post
    ensures forall i :: 0 <= i < |pre| ==> pre[i].block < b
    ensures forall i :: 0 <= i < |post| ==> b < post[i].block
  {
    pre := Receives(contents, address, since, b - 1, at);
    post := Receives(contents, address, b + 1, frontier, at);
    ReceivesSplit(contents, address, since, b, frontier, at);
    forall i | 0 <= i < |pre|
      ensures pre[i].block < b
    {
      ReceivesMeaning(contents, address, since, b - 1, at, pre[i]);
    }
    forall i | 0 <= i < |post|
      ensures b < post[i].block
    {
      ReceivesMeaning(contents, address, b + 1, frontier, at, post[i]);
    }
  }

  /** With nothing eligible of its hash before the block, a receive is the scan's first if it is the block's. */
  lemma FirstIffLeads(f: Filter, pre: seq<UsdcReceive>, ts: seq<Transfer>, b: u64, at: Time, post: seq<UsdcReceive>,
        m: nat)
    requires m < |ts| && ts[m].txHash !in f.processed && SatSub(f.currentBlock, b) >= f.required
    requires forall i :: 0 <= i < |pre| && f.Passes(pre[i]) ==> pre[i].txHash != ts[m].txHash
    ensures f.IsFirst(pre + Stamp(ts, b, at) + post, |pre| + m) <==> LeadsAt(ts, m)
  {
    var rs, mid, n := pre + Stamp(ts, b, at) + post, Stamp(ts, b, at), |pre|;
    assert rs[n + m] == mid[m];
    if f.IsFirst(rs, n + m) {
      forall j | 0 <= j < m && ts[j].amount >= USDC_DUST_THRESHOLD
        ensures ts[j].txHash != ts[m].txHash
      {
        assert rs[n + j] == mid[j];
      }
    }
    if LeadsAt(ts, m) {
      forall k | 0 <= k < n + m && f.Passes(rs[k])
        ensures rs[k].txHash != ts[m].txHash
      {
        assert rs[k] == if k < n then pre[k] else mid[k - n];
      }
    }
  }

  lemma FirstItselfMeans(contents: Contents, address: string, since: u64, frontier: u64, at: Time, b: u64, f: Filter,
        k: nat)
    requires frontier <= f.currentBlock < U64_MAX
    requires k < |Receives(contents, address, since, frontier, at)|
    requires f.IsFirst(Receives(contents, address, since, frontier, at), k)
    requires OnlyInBlock(contents, address, Receives(contents, address, since, frontier, at)[k].txHash, b,
            f.currentBlock, f.required)
    ensures since <= b <= frontier && b + f.required <= f.currentBlock
    ensures var r := Receives(contents, address, since, frontier, at)[k];
            Leads(contents(address, b), Transfer(r.txHash, r.amount))
  {
    var rs, ts := Receives(contents, address, since, frontier, at), contents(address, b);
    hide Receives, OnlyInBlock, LeadsAt;
    EligibleInBlock(contents, address, since, frontier, at, b, f, rs, k);
    var pre, post := BlockPosition(contents, address, since, frontier, at, b);
    FloorAgrees(f.currentBlock, f.required, b);
    assert forall i :: 0 <= i < |pre| ==> pre[i] == rs[i];
    FirstIffLeads(f, pre, ts, b, at, post, k - |pre|);
  }

  lemma LeaderIsFirst(contents: Contents, address: string, since: u64, frontier: u64, at: Time, b: u64, f: Filter,
        t: Transfer)
    requires since <= b <= frontier <= f.currentBlock < U64_MAX && b + f.required <= f.currentBlock
    requires OnlyInBlock(contents, address, t.txHash, b, f.currentBlock, f.required)
    requires t.txHash !in f.processed && Leads(contents(address, b), t)
    ensures ItselfFirst(f, Receives(contents, address, since, frontier, at), t)
  {
    var rs, ts := Receives(contents, address, since, frontier, at), contents(address, b);
    hide Receives, OnlyInBlock, LeadsAt;
    var m :| 0 <= m < |ts| && ts[m] == t && LeadsAt(ts, m);
    var pre, post := BlockPosition(contents, address, since, frontier, at, b);
    FloorAgrees(f.currentBlock, f.required, b);
    forall i | 0 <= i < |pre| && f.Passes(pre[i])
      ensures pre[i].txHash != t.txHash
    {
      assert rs[i] == pre[i];
      if pre[i].txHash == t.txHash {
        EligibleInBlock(contents, address, since, frontier, at, b, f, rs, i);
      }
    }
    FirstIffLeads(f, pre, ts, b, at, post, m);
    assert rs[|pre| + m] == Stamp(ts, b, at)[m];
  }

  lemma FirstItselfIff(contents: Contents, address: string, since: u64, frontier: u64, at: Time, b: u64, f: Filter,
        t: Transfer)
    requires frontier <= f.currentBlock < U64_MAX
    requires OnlyInBlock(contents, address, t.txHash, b, f.currentBlock, f.required)
    ensures ItselfFirst(f, Receives(contents, address, since, frontier, at), t)
       <==> && t.txHash !in f.processed
            && since <= b <= frontier && b + f.required <= f.currentBlock
            && Leads(contents(address, b), t)
  {
    var rs := Receives(contents, address, since, frontier, at);
    hide Receives, OnlyInBlock, Leads;
    if k :| 0 <= k < |rs| && f.IsFirst(rs, k) && Transfer(rs[k].txHash, rs[k].amount) == t {
      FirstItselfMeans(contents, address, since, frontier, at, b, f, k);
    }
    if t.txHash !in f.processed && since <= b <= frontier && b + f.required <= f.currentBlock
        && Leads(contents(address, b), t) {
      LeaderIsFirst(contents, address, since, frontier, at, b, f, t);
    }
  }

  /**
   * A transfer is sent itself exactly when its hash is new, the scan reached its block while that was
   * final, and it is the first non-dust transfer of its transaction there.
   */
  lemma SentItselfIff(cfg: Config, st: State, chain: Chain, ac: AddressConfig, since: u64, current: Height,
        contents: Contents, scan: ScanEnv, b: u64, t: Transfer)
    requires OnlyInBlock(contents, ac.address, t.txHash, b, current, cfg.ConfirmationsFor(chain))
    ensures SendsItself(cfg, st, chain, ac, since, current, contents, scan, t)
       <==> && t.txHash !in st.processed
            && Reaches(cfg, chain, ac, since, current, contents, scan, b)
            && Leads(contents(ac.address, b), t)
  {
    hide OnlyInBlock, Leads, ItselfFirst;
    var f := Filter(st.processed, current, cfg.ConfirmationsFor(chain));
    var fetched := Fetch(contents, ac.address, scan, since, current, ChunkSize(chain));
    FetchMeaning(contents, ac.address, scan, since, current, ChunkSize(chain));
    hide Fetch, Select;
    if fetched.Ok? {
      var fetch := fetched.value;
      SelectedItself(ac, chain, f, fetch.receives, scan.clock, t);
      if since <= current {
        FirstItselfIff(contents, ac.address, since, fetch.frontier, scan.fetchedAt, b, f, t);
      }
    }
  }

  /** What it takes for a pass to record a frontier m for a chain. */
  lemma RecordedMeaning(cfg: Config, st: State, chain: Chain, view: ChainView, m: u64)
    requires RunChain(cfg, st, chain, view).result.LatestSeenBlock() == Some(m)
    ensures view.height.Some? && SinceBlock(cfg, st, chain).Some?
    ensures m <= SatSub(view.height.value, cfg.ConfirmationsFor(chain))
    ensures cfg.addresses != []
    ensures forall i :: 0 <= i < |cfg.addresses| ==>
              var f := Fetch(view.contents, cfg.addresses[i].address, view.scans(i), SinceBlock(cfg, st,
                  chain).value, view.height.value, ChunkSize(chain));
              f.Ok? && m <= f.value.frontier
  {
    var scans := RunChain(cfg, st, chain, view).scans;
    TotalRecords(Map(ResultOf, scans), m);
    forall i | 0 <= i < |cfg.addresses|
      ensures var f := Fetch(view.contents, cfg.addresses[i].address, view.scans(i), SinceBlock(cfg, st,
              chain).value, view.height.value, ChunkSize(chain));
              f.Ok? && m <= f.value.frontier && m <= SatSub(view.height.value, cfg.ConfirmationsFor(chain))
    {
      assert Map(ResultOf, scans)[i] == scans[i].result;
    }
    assert |scans| > 0;
    assert Map(ResultOf, scans)[0] == scans[0].result;
  }

  /** How far the scan of address i puts the frontier, if it gets anywhere. */
  function Progress(cfg: Config, st: State, chain: Chain, view: ChainView, i: nat): Option<u64>
    requires view.height.Some? && SinceBlock(cfg, st, chain).Some? && i < |cfg.addresses|
  {
    match Fetch(view.contents, cfg.addresses[i].address, view.scans(i), SinceBlock(cfg, st, chain).value,
        view.height.value, ChunkSize(chain))
    case Err(_) => None
    case Ok(fetch) => Some(Min(fetch.frontier, SatSub(view.height.value, cfg.ConfirmationsFor(chain))))
  }

  function Progresses(cfg: Config, st: State, chain: Chain, view: ChainView): (ps: seq<Option<u64>>)
    requires view.height.Some? && SinceBlock(cfg, st, chain).Some?
    ensures |ps| == |cfg.addresses| && forall i :: 0 <= i < |ps| ==> ps[i] == Progress(cfg, st, chain, view, i)
  {
    seq(|cfg.addresses|, i requires 0 <= i < |cfg.addresses| => Progress(cfg, st, chain, view, i))
  }

  /** All got somewhere, and m is the least that any of them got to. */
  ghost predicate IsLeast(ps: seq<Option<u64>>, m: u64) {
    && (forall i :: 0 <= i < |ps| ==> ps[i].Some? && m <= ps[i].value)
    && (exists i :: 0 <= i < |ps| && ps[i] == Some(m))
  }

  lemma ScanProgress(cfg: Config, st: State, chain: Chain, view: ChainView, i: nat)
    requires view.height.Some? && SinceBlock(cfg, st, chain).Some? && i < |cfg.addresses|
    ensures var out := RunChain(cfg, st, chain, view);
            && |out.scans| == |cfg.addresses|
            && out.scans[i].result.frontier == Progress(cfg, st, chain, view, i)
            && (Progress(cfg, st, chain, view, i).Some? ==> Progress(cfg, st, chain, view, i).value < U64_MAX)
  {
    FetchMeaning(view.contents, cfg.addresses[i].address, view.scans(i), SinceBlock(cfg, st, chain).value,
        view.height.value, ChunkSize(chain));
  }

  /** A scan stops below the floor only at a request that failed. */
  lemma ProgressStops(cfg: Config, st: State, chain: Chain, view: ChainView, i: nat, m: u64)
    requires view.height.Some? && SinceBlock(cfg, st, chain).Some? && i < |cfg.addresses|
    requires Progress(cfg, st, chain, view, i) == Some(m)
    ensures var floor := SatSub(view.height.value, cfg.ConfirmationsFor(chain));
            m <= floor && (m < floor ==> view.scans(i).down(NextRequest(m + 1, view.height.value, ChunkSize(chain))))
  {
    FetchMeaning(view.contents, cfg.addresses[i].address, view.scans(i), SinceBlock(cfg, st, chain).value,
        view.height.value, ChunkSize(chain));
  }

  lemma LeastOf(rs: seq<ChainResult>, ps: seq<Option<u64>>, m: u64)
    requires |rs| == |ps|
    requires forall i :: 0 <= i < |rs| ==> rs[i].frontier == ps[i] && (ps[i].Some? ==> ps[i].value < U64_MAX)
    ensures Total(rs).LatestSeenBlock() == Some(m) <==> IsLeast(ps, m)
  {
    hide Total;
    TotalRecords(rs, m);
  }

  /** A pass records frontier m for a chain exactly when m is the least progress of its addresses. */
  lemma RecordedIff(cfg: Config, st: State, chain: Chain, view: ChainView, m: u64)
    ensures RunChain(cfg, st, chain, view).result.LatestSeenBlock() == Some(m)
       <==> view.height.Some? && SinceBlock(cfg, st, chain).Some? && IsLeast(Progresses(cfg, st, chain, view), m)
  {
    if view.height.Some? && SinceBlock(cfg, st, chain).Some? {
      var out := RunChain(cfg, st, chain, view);
      var rs := Map(ResultOf, out.scans);
      assert out.result == Total(rs) && |rs| == |cfg.addresses|;
      hide RunChain, Progress, Progresses, Total, ScanSpec, IsLeast;
      var ps := Progresses(cfg, st, chain, view);
      forall i | 0 <= i < |rs|
        ensures rs[i].frontier == ps[i] && (ps[i].Some? ==> ps[i].value < U64_MAX)
      {
        ScanProgress(cfg, st, chain, view, i);
      }
      LeastOf(rs, ps, m);
    }
  }

  /** A recorded frontier is below the restart block only when the confirmation floor is. */
  lemma RecordedAtLeast(cfg: Config, st: State, chain: Chain, view: ChainView, m: u64)
    requires RunChain(cfg, st, chain, view).result.LatestSeenBlock() == Some(m)
    ensures view.height.Some? && SinceBlock(cfg, st, chain).Some?
    ensures Min(SinceBlock(cfg, st, chain).value, SatSub(view.height.value, cfg.ConfirmationsFor(chain))) <= m
  {
    RecordedMeaning(cfg, st, chain, view, m);
    var scans := RunChain(cfg, st, chain, view).scans;
    TotalRecords(Map(ResultOf, scans), m);
    var i :| 0 <= i < |scans| && Map(ResultOf, scans)[i].frontier == Some(m);
    FetchMeaning(view.contents, cfg.addresses[i].address, view.scans(i), SinceBlock(cfg, st, chain).value,
        view.height.value, ChunkSize(chain));
  }

  /**
   * A pass that records a frontier for a chain it has seen before keeps it from falling exactly
   * when the confirmation floor has not fallen below it.
   */
  lemma FrontierKeptIff(cfg: Config, st: State, chain: Chain, view: ChainView, m: u64)
    requires chain in st.lastSeen
    requires RunChain(cfg, st, chain, view).result.LatestSeenBlock() == Some(m)
    ensures st.lastSeen[chain].block <= m
       <==> st.lastSeen[chain].block <= SatSub(view.height.value, cfg.ConfirmationsFor(chain))
  {
    RecordedMeaning(cfg, st, chain, view, m);
    RecordedAtLeast(cfg, st, chain, view, m);
  }
}
