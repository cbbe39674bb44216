/** One deposit check pass: discovery and liquidation joined, and their results merged into the state. */
module Orchestrator {
  import opened Types
  import opened Seqs
  import opened ChainResults
  import opened Discovery
  import opened Worker
  import opened Pipeline
  import opened Persistence

  // ---------------------------------------------------------------------------
  // Merging
  // ---------------------------------------------------------------------------

  function MergeChain(st: State, chain: Chain, r: ChainResult, now: Time): State {
    st.(lastSeen :=
          if r.LatestSeenBlock().Some? then
              st.lastSeen[chain := LastSeenBlock(r.LatestSeenBlock().value, now)] else st.lastSeen,
        processed := st.processed + set h | h in r.processed)
  }

  /** The state after merging the first n chains. */
  function MergeDiscovery(st: State, outs: seq<ChainOutcome>, views: Views, n: nat): State
    requires n <= |outs| == |ALL_CHAINS|
  {
    if n == 0 then st
    else MergeChain(MergeDiscovery(st, outs, views, n - 1), ALL_CHAINS[n - 1], outs[n - 1].result,
        views(ALL_CHAINS[n - 1]).mergedAt)
  }

  function MergeLiquidations(st: State, rs: seq<LiquidationResult>): State {
    if rs == [] then st
    else
      var before := MergeLiquidations(st, rs[..|rs| - 1]);
      var r := rs[|rs| - 1];
      before.(bankPayments := before.bankPayments[r.payment.id := r.payment],
          processed := before.processed + {r.txHash})
  }

  function AfterPass(st: State, outs: seq<ChainOutcome>, views: Views, rs: seq<LiquidationResult>): State
    requires |outs| == |ALL_CHAINS|
  {
    MergeLiquidations(MergeDiscovery(st, outs, views, |outs|), rs)
  }

  function ResultIn(d: Done): LiquidationResult {
    d.result
  }

  function HashIn(r: LiquidationResult): string {
    r.txHash
  }

  function ErrorsIn(o: ChainOutcome): seq<ErrorReport> {
    o.result.errors
  }

  /** The jobs of each scan's producer, numbered by producer and position. */
  function Tag(lists: seq<seq<EligibleDeposit>>): (found: seq<seq<Job>>)
    ensures |found| == |lists|
    ensures forall p :: 0 <= p < |lists| ==> |found[p]| == |lists[p]|
    ensures forall p, i :: 0 <= p < |lists| && 0 <= i < |lists[p]| ==> found[p][i] == Job(JobId(p, i), lists[p][i])
  {
    seq(|lists|, p requires 0 <= p < |lists| =>
      seq(|lists[p]|, i requires 0 <= i < |lists[p]| => Job(JobId(p, i), lists[p][i])))
  }

  function PassPipe(cfg: Config, st: State, views: Views, x: Exchange, schedule: seq<Step>): Pipe {
    Run(x, cfg.maxAutoAmount, Start(Tag(SendLists(Discover(cfg, st, views)))), schedule)
  }

  method MergeChainResult(state: PersistedState, chain: Chain, result: ChainResult, now: Time)
    modifies state
    ensures state.Value() == MergeChain(old(state.Value()), chain, result, now)
  {
    var block := result.LatestSeenBlock();
    if block.Some? {
      state.lastSeenBlock := state.lastSeenBlock[chain := LastSeenBlock(block.value, now)];
    }
    ghost var merged := state.lastSeenBlock;
    for j := 0 to |result.processed|
      invariant state.bankPayments == old(state.bankPayments) && state.lastSeenBlock == merged
      invariant state.processedTxHashes == old(state.processedTxHashes) + set h | h in result.processed[..j]
    {
      state.processedTxHashes := state.processedTxHashes + {result.processed[j]};
    }
    assert result.processed[..|result.processed|] == result.processed;
  }

  method MergeLiquidationResults(state: PersistedState, liquidations: seq<LiquidationResult>)
    modifies state
    ensures state.Value() == MergeLiquidations(old(state.Value()), liquidations)
  {
    for i := 0 to |liquidations|
      invariant state.Value() == MergeLiquidations(old(state.Value()), liquidations[..i])
    {
      assert liquidations[..i + 1][..i] == liquidations[..i];
      state.bankPayments := state.bankPayments[liquidations[i].payment.id := liquidations[i].payment];
      state.processedTxHashes := state.processedTxHashes + {liquidations[i].txHash};
    }
    assert liquidations[..|liquidations|] == liquidations;
  }

  /**
   * The pass: every chain is checked, address by address, and what the scans send goes through the
   * pipeline. The schedule is the interleaving of scans, channel and jobs that happened; the pass
   * returns when both sides have, so the worker has exited at its end.
   */
  method DepositCheck(state: PersistedState, cfg: Config, views: Views, x: Exchange, schedule: seq<Step>)
    returns (errors: seq<ErrorReport>)
    requires PassPipe(cfg, state.Value(), views, x, schedule).exited
    modifies state
    ensures var st := old(state.Value());
            && state.Value() == AfterPass(st, Discover(cfg, st, views), views, Map(ResultIn, PassPipe(cfg, st,
                views, x, schedule).results))
            && errors == Concat(Map(ErrorsIn, Discover(cfg, st, views)))
  {
    ghost var st := state.Value();
    var chainResults: seq<ChainOutcome> := [];
    for i := 0 to |ALL_CHAINS|
      invariant state.Value() == st && chainResults == Discover(cfg, st, views)[..i]
    {
      var checked := CheckChain(cfg, state.Value(), ALL_CHAINS[i], views(ALL_CHAINS[i]));
      chainResults := chainResults + [checked];
    }
    assert chainResults == Discover(cfg, st, views);
    var pipe := Run(x, cfg.maxAutoAmount, Start(Tag(SendLists(chainResults))), schedule);
    var liquidations := Map(ResultIn, pipe.results);
    errors := [];
    for i := 0 to |chainResults|
      invariant state.Value() == MergeDiscovery(st, chainResults, views, i)
      invariant errors == Concat(Map(ErrorsIn, chainResults[..i]))
    {
      MergeChainResult(state, ALL_CHAINS[i], chainResults[i].result, views(ALL_CHAINS[i]).mergedAt);
      ErrorsSoFar(chainResults, i);
      errors := errors + chainResults[i].result.errors;
    }
    assert chainResults[..|chainResults|] == chainResults;
    MergeLiquidationResults(state, liquidations);
  }

  lemma ErrorsSoFar(outs: seq<ChainOutcome>, i: nat)
    requires i < |outs|
    ensures Concat(Map(ErrorsIn, outs[..i + 1])) == Concat(Map(ErrorsIn, outs[..i])) + outs[i].result.errors
  {
    assert Map(ErrorsIn, outs[..i + 1]) == Map(ErrorsIn, outs[..i]) + [outs[i].result.errors];
    ConcatSnoc(Map(ErrorsIn, outs[..i]), outs[i].result.errors);
  }

  // ---------------------------------------------------------------------------
  // What merging does
  // ---------------------------------------------------------------------------

  /** A chain's entry is replaced exactly when its pass recorded a frontier. */
  lemma {:induction false} MergedFrontier(st: State, outs: seq<ChainOutcome>, views: Views, n: nat, c: Chain)
    requires n <= |outs| == |ALL_CHAINS|
    ensures var after := MergeDiscovery(st, outs, views, n).lastSeen;
            var r := outs[ChainIndex(c)].result.LatestSeenBlock();
            if ChainIndex(c) < n && r.Some? then c in after && after[c] == LastSeenBlock(r.value, views(c).mergedAt)
            else (c in after <==> c in st.lastSeen) && (c in after ==> after[c] == st.lastSeen[c])
  {
    if n > 0 {
      MergedFrontier(st, outs, views, n - 1, c);
      assert ChainIndex(ALL_CHAINS[n - 1]) == n - 1;
    }
  }

  lemma {:induction false} MergedHashes(st: State, outs: seq<ChainOutcome>, views: Views, n: nat, h: string)
    requires n <= |outs| == |ALL_CHAINS|
    ensures MergeDiscovery(st, outs, views, n).bankPayments == st.bankPayments
    ensures h in MergeDiscovery(st, outs, views, n).processed
       <==> h in st.processed || exists i :: 0 <= i < n && h in outs[i].result.processed
  {
    if n > 0 {
      MergedHashes(st, outs, views, n - 1, h);
    }
  }

  lemma {:induction false} MergedResultHash(st: State, rs: seq<LiquidationResult>, h: string)
    ensures MergeLiquidations(st, rs).lastSeen == st.lastSeen
    ensures h in MergeLiquidations(st, rs).processed
       <==> h in st.processed || exists i :: 0 <= i < |rs| && rs[i].txHash == h
  {
    if rs != [] {
      MergedResultHash(st, rs[..|rs| - 1], h);
    }
  }

  /** Index of the last result with a given key. */
  function LastIndex(rs: seq<LiquidationResult>, k: string): (r: Option<nat>)
    ensures r.Some? ==> r.value < |rs| && rs[r.value].payment.id == k
    ensures r.Some? ==> forall j :: r.value < j < |rs| ==> rs[j].payment.id != k
    ensures r.None? ==> forall j :: 0 <= j < |rs| ==> rs[j].payment.id != k
  {
    if rs == [] then None
    else if rs[|rs| - 1].payment.id == k then Some(|rs| - 1)
    else LastIndex(rs[..|rs| - 1], k)
  }

  /** Under a key the merge leaves the last result with that key, or else what was there. */
  lemma {:induction false} MergedRecord(st: State, rs: seq<LiquidationResult>, k: string)
    ensures var after := MergeLiquidations(st, rs).bankPayments;
            match LastIndex(rs, k)
            case Some(i) => k in after && after[k] == rs[i].payment
            case None => (k in after <==> k in st.bankPayments) && (k in after ==> after[k] == st.bankPayments[k])
  {
    if rs != [] {
      MergedRecord(st, rs[..|rs| - 1], k);
    }
  }

  /** Every audit record, old and new, is in the state after the merge. */
  ghost predicate AllRecordsKept(st: State, rs: seq<LiquidationResult>) {
    var after := MergeLiquidations(st, rs).bankPayments;
    && (forall k :: k in st.bankPayments ==> k in after && after[k] == st.bankPayments[k])
    && (forall i :: 0 <= i < |rs| ==> rs[i].payment.id in after && after[rs[i].payment.id] == rs[i].payment)
  }

  /** No key is used for two different records. */
  ghost predicate NoKeyClash(st: State, rs: seq<LiquidationResult>) {
    && (forall i, j :: 0 <= i < j < |rs| && rs[i].payment.id == rs[j].payment.id ==> rs[i].payment == rs[j].payment)
    && (forall i :: 0 <= i < |rs| && rs[i].payment.id in st.bankPayments
          ==> st.bankPayments[rs[i].payment.id] == rs[i].payment)
  }

  /**
   * The audit trail is complete after a pass exactly when no two different records fall on one key.
   * Keys carry only the date and eight characters of the hash, so they can (AuditKeys.KeyOrder).
   */
  lemma AuditCompleteIff(st: State, rs: seq<LiquidationResult>)
    ensures AllRecordsKept(st, rs) <==> NoKeyClash(st, rs)
  {
    forall i | 0 <= i < |rs|
      ensures NoKeyClash(st, rs) ==> var after := MergeLiquidations(st, rs).bankPayments;
                                     rs[i].payment.id in after && after[rs[i].payment.id] == rs[i].payment
    {
      MergedRecord(st, rs, rs[i].payment.id);
    }
    forall k | k in st.bankPayments
      ensures NoKeyClash(st, rs) ==> var after := MergeLiquidations(st, rs).bankPayments;
                                     k in after && after[k] == st.bankPayments[k]
    {
      MergedRecord(st, rs, k);
    }
  }

  // ---------------------------------------------------------------------------
  // The pipelined pass refines the sequential one
  // ---------------------------------------------------------------------------

  /** Scan every chain first, then liquidate the deposits one by one. */
  function SequentialResults(cfg: Config, st: State, views: Views, x: Exchange): seq<LiquidationResult> {
    Map((j: Job) => LiquidateOne(x, cfg.maxAutoAmount, j), Concat(Tag(SendLists(Discover(cfg, st, views)))))
  }

  lemma TagDistinct(lists: seq<seq<EligibleDeposit>>)
    ensures DistinctBy(IdOf, Concat(Tag(lists)))
  {
    var found := Tag(lists);
    forall p, q, x, y | 0 <= p < q < |found| && x in found[p] && y in found[q]
      ensures IdOf(x) != IdOf(y)
    {
      assert x.id.producer == p && y.id.producer == q;
    }
    ConcatDistinct(IdOf, found);
  }

  /** However scans and jobs interleave, the pass ends with the same results as the sequential pass, in some order. */
  lemma ResultsAreSequential(cfg: Config, st: State, views: Views, x: Exchange, schedule: seq<Step>)
    requires PassPipe(cfg, st, views, x, schedule).exited
    ensures multiset(Map(ResultIn, PassPipe(cfg, st, views, x,
            schedule).results)) == multiset(SequentialResults(cfg, st, views, x))
    ensures multiset(PassPipe(cfg, st, views, x, schedule).sent) == multiset(Concat(Tag(SendLists(Discover(cfg, st,
            views)))))
  {
    var found := Tag(SendLists(Discover(cfg, st, views)));
    var s := PassPipe(cfg, st, views, x, schedule);
    var one := (j: Job) => LiquidateOne(x, cfg.maxAutoAmount, j);
    TagDistinct(SendLists(Discover(cfg, st, views)));
    AlwaysConserved(x, cfg.maxAutoAmount, found, schedule);
    AlwaysFaithful(x, cfg.maxAutoAmount, found, schedule);
    NothingUnsent(s);
    assert s.queue == [] && Map(ActiveJob, s.active) == [];
    MapMap(DoneJob, one, ResultIn, s.results);
    MapPerm(one, Map(DoneJob, s.results), Concat(found));
    assert SequentialResults(cfg, st, views, x) == Map(one, Concat(found));
  }

  lemma NothingUnsent(s: Pipe)
    requires Drained(s)
    ensures Unsent(s) == []
  {
    ConcatOfEmpty(Map(LeftIn, s.producers));
  }

  function KeyOf(r: LiquidationResult): string {
    r.payment.id
  }

  lemma SameHashes(st: State, a: seq<LiquidationResult>, b: seq<LiquidationResult>)
    requires forall x :: x in a <==> x in b
    ensures MergeLiquidations(st, a).processed == MergeLiquidations(st, b).processed
    ensures MergeLiquidations(st, a).lastSeen == MergeLiquidations(st, b).lastSeen
  {
    forall h
      ensures h in MergeLiquidations(st, a).processed <==> h in MergeLiquidations(st, b).processed
    {
      MergedResultHash(st, a, h);
      MergedResultHash(st, b, h);
      if i :| 0 <= i < |a| && a[i].txHash == h {
        assert a[i] in b;
      }
      if i :| 0 <= i < |b| && b[i].txHash == h {
        assert b[i] in a;
      }
    }
    MergedResultHash(st, a, "");
    MergedResultHash(st, b, "");
  }

  lemma SameRecord(st: State, a: seq<LiquidationResult>, b: seq<LiquidationResult>, k: string)
    requires (forall x :: x in a <==> x in b) && DistinctBy(KeyOf, a) && DistinctBy(KeyOf, b)
    ensures var p, q := MergeLiquidations(st, a).bankPayments, MergeLiquidations(st, b).bankPayments;
            (k in p <==> k in q) && (k in p ==> p[k] == q[k])
  {
    hide MergeLiquidations, LastIndex;
    MergedRecord(st, a, k);
    MergedRecord(st, b, k);
    match LastIndex(a, k) {
      case Some(i) =>
        assert a[i] in b;
        var j :| 0 <= j < |b| && b[j] == a[i];
        assert KeyOf(b[j]) == k;
      case None =>
        assert forall j :: 0 <= j < |b| ==> b[j] in a;
    }
  }

  /** Merging does not depend on the order of the results when their keys are distinct. */
  lemma MergeSameSet(st: State, a: seq<LiquidationResult>, b: seq<LiquidationResult>)
    requires multiset(a) == multiset(b)
    ensures MergeLiquidations(st, a).processed == MergeLiquidations(st, b).processed
    ensures MergeLiquidations(st, a).lastSeen == MergeLiquidations(st, b).lastSeen
    ensures DistinctBy(KeyOf, b) ==> MergeLiquidations(st, a) == MergeLiquidations(st, b)
  {
    SameMembers(a, b);
    SameHashes(st, a, b);
    if DistinctBy(KeyOf, b) {
      DistinctPerm(KeyOf, b, a);
      var p, q := MergeLiquidations(st, a).bankPayments, MergeLiquidations(st, b).bankPayments;
      forall k
        ensures (k in p <==> k in q) && (k in p ==> p[k] == q[k])
      {
        SameRecord(st, a, b, k);
      }
      assert p == q;
    }
  }

  /**
   * The pipelined pass leaves the same dedup set and frontiers as the sequential pass, and the same
   * audit records when the keys of the pass are distinct.
   */
  lemma PipelineRefinesSequential(cfg: Config, st: State, views: Views, x: Exchange, schedule: seq<Step>)
    requires PassPipe(cfg, st, views, x, schedule).exited
    ensures var outs := Discover(cfg, st, views);
            var piped := AfterPass(st, outs, views, Map(ResultIn, PassPipe(cfg, st, views, x, schedule).results));
            var sequential := AfterPass(st, outs, views, SequentialResults(cfg, st, views, x));
            && piped.processed == sequential.processed
            && piped.lastSeen == sequential.lastSeen
            && (DistinctBy(KeyOf, SequentialResults(cfg, st, views, x)) ==> piped == sequential)
  {
    ResultsAreSequential(cfg, st, views, x, schedule);
    var outs := Discover(cfg, st, views);
    MergeSameSet(MergeDiscovery(st, outs, views, |outs|),
                 Map(ResultIn, PassPipe(cfg, st, views, x, schedule).results), SequentialResults(cfg, st, views, x));
  }
}
