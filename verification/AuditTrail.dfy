/** The audit records over many runs: what they say, how they are keyed, and when they agree with the dedup set. */
module AuditTrail {
  import opened Types
  import opened Seqs
  import opened AuditKeys
  import opened Discovery
  import opened Pipeline
  import opened Persistence
  import opened Orchestrator
  import opened Runs

  /** The deposit that an audit record describes. */
  function DepositDescribed(r: LiquidationResult): EligibleDeposit {
    var p := r.payment;
    EligibleDeposit(p.address, p.chain, p.txHash, p.amount, p.paymentMethod, p.depositedAt, p.processedAt)
  }

  function Identity(d: EligibleDeposit): EligibleDeposit {
    d
  }

  /** The records of a completed run describe exactly the deposits it sent, every field of them. */
  lemma RecordsReproduceSends(w: World, e: RunEnv)
    requires PipeAfter(w, e).exited
    ensures multiset(Map(DepositDescribed, Results(w, e))) == multiset(Sends(w, e))
  {
    ResultsReflectSends(w, e, DepositDescribed, Identity);
    assert Map(Identity, Sends(w, e)) == Sends(w, e);
  }

  predicate WellKeyed(r: LiquidationResult) {
    r.payment.id == MakeId(r.payment.processedAt, r.payment.txHash) && r.payment.txHash == r.txHash
  }

  /** Also in a run that is killed, every result so far is keyed by its own date and hash. */
  lemma ResultsWellKeyed(w: World, e: RunEnv)
    ensures forall r :: r in Results(w, e) ==> WellKeyed(r)
  {
    var lists := SendLists(Discover(e.cfg, w.disk, e.views));
    TagDistinct(lists);
    AlwaysFaithful(e.exchange, e.cfg.maxAutoAmount, Tag(lists), e.schedule);
  }

  /** The records a merge leaves are old ones under their old keys or new ones under their own. */
  lemma MergedRecordKeyed(st: State, rs: seq<LiquidationResult>, k: string)
    requires KeysAreIds(st.bankPayments) && forall r :: r in rs ==> WellKeyed(r)
    requires k in MergeLiquidations(st, rs).bankPayments
    ensures var p := MergeLiquidations(st, rs).bankPayments[k];
            p.id == k && k == MakeId(p.processedAt, p.txHash)
  {
    MergedRecord(st, rs, k);
    if LastIndex(rs, k).Some? {
      assert rs[LastIndex(rs, k).value] in rs;
    }
  }

  lemma MergeKeepsKeys(w: World, e: RunEnv)
    requires KeysAreIds(w.disk.bankPayments)
    ensures KeysAreIds(Merged(w, e).bankPayments)
  {
    var outs := Discover(e.cfg, w.disk, e.views);
    var discovered := MergeDiscovery(w.disk, outs, e.views, |outs|);
    MergedHashes(w.disk, outs, e.views, |outs|, "");
    ResultsWellKeyed(w, e);
    forall k | k in Merged(w, e).bankPayments
      ensures var p := Merged(w, e).bankPayments[k]; p.id == k && k == MakeId(p.processedAt, p.txHash)
    {
      MergedRecordKeyed(discovered, Results(w, e), k);
    }
  }

  lemma RunKeepsKeys(w: World, e: RunEnv)
    requires KeysAreIds(w.disk.bankPayments)
    ensures KeysAreIds(RunOnce(w, e).disk.bankPayments)
  {
    hide Merged;
    MergeKeepsKeys(w, e);
  }

  /** In every state file ever written, each record is under the key made from its date and hash. */
  lemma {:induction false} KeysAlwaysIds(ws: seq<World>, envs: seq<RunEnv>, n: nat)
    requires History(ws, envs) && n <= |envs|
    ensures KeysAreIds(ws[n].disk.bankPayments)
  {
    hide RunOnce, Completes;
    if n > 0 {
      KeysAlwaysIds(ws, envs, n - 1);
      assert IsRun(ws, envs, n - 1);
      RunKeepsKeys(ws[n - 1], envs[n - 1]);
    }
  }

  /** In every state file ever written, records in key order are in order of their processing day. */
  lemma AlwaysChronological(ws: seq<World>, envs: seq<RunEnv>, n: nat, k1: string, k2: string)
    requires History(ws, envs) && n <= |envs|
    requires k1 in ws[n].disk.bankPayments && k2 in ws[n].disk.bankPayments && Less(k1, k2)
    requires DateOf(ws[n].disk.bankPayments[k1].processedAt).year <= 9999
    requires DateOf(ws[n].disk.bankPayments[k2].processedAt).year <= 9999
    ensures ws[n].disk.bankPayments[k1].processedAt / DAY <= ws[n].disk.bankPayments[k2].processedAt / DAY
  {
    KeysAlwaysIds(ws, envs, n);
    AuditTrailIsChronological(ws[n].disk.bankPayments, k1, k2);
  }

  lemma MergeKeepsAgreement(w: World, e: RunEnv)
    requires HashesRemembered(w.disk)
    ensures HashesRemembered(Merged(w, e))
  {
    var outs := Discover(e.cfg, w.disk, e.views);
    var discovered := MergeDiscovery(w.disk, outs, e.views, |outs|);
    ResultsWellKeyed(w, e);
    forall k | k in Merged(w, e).bankPayments
      ensures Merged(w, e).bankPayments[k].txHash in Merged(w, e).processed
    {
      var h := Merged(w, e).bankPayments[k].txHash;
      MergedHashes(w.disk, outs, e.views, |outs|, h);
      MergedRecord(discovered, Results(w, e), k);
      MergedResultHash(discovered, Results(w, e), h);
      if LastIndex(Results(w, e), k).Some? {
        assert Results(w, e)[LastIndex(Results(w, e), k).value] in Results(w, e);
      }
    }
  }

  /**
   * A saved run keeps "every retained record's hash is in the dedup set" exactly when its pruning
   * drops no record whose hash a retained record shares.
   */
  lemma SavedRunAgreesIff(w: World, e: RunEnv)
    requires e.fate.Saved? && HashesRemembered(w.disk)
    ensures HashesRemembered(RunOnce(w, e).disk) <==> NoSharedHash(Merged(w, e).bankPayments, e.prunedAt - RETENTION)
  {
    hide Merged;
    MergeKeepsAgreement(w, e);
    PruneAgreesIff(Merged(w, e), e.prunedAt - RETENTION);
  }

  // ---------------------------------------------------------------------------
  // Which records the state file still holds
  // ---------------------------------------------------------------------------

  predicate Holds(st: State, k: string, p: BankPayment) {
    k in st.bankPayments && st.bankPayments[k] == p
  }

  /** The run saves record p as its last one under key k, and does not prune it at once. */
  predicate Writes(w: World, e: RunEnv, k: string, p: BankPayment) {
    var last := LastIndex(Results(w, e), k);
    e.fate.Saved? && last.Some? && Results(w, e)[last.value].payment == p && p.processedAt >= e.prunedAt - RETENTION
  }

  /** The run does not save, or it writes nothing under key k and does not prune p. */
  predicate Keeps(w: World, e: RunEnv, k: string, p: BankPayment) {
    e.fate.Saved? ==> LastIndex(Results(w, e), k).None? && p.processedAt >= e.prunedAt - RETENTION
  }

  lemma HoldsAfter(w: World, e: RunEnv, k: string, p: BankPayment)
    ensures Holds(RunOnce(w, e).disk, k, p) <==> Writes(w, e, k, p) || (Holds(w.disk, k, p) && Keeps(w, e, k, p))
  {
    hide LastIndex, Results;
    var outs := Discover(e.cfg, w.disk, e.views);
    MergedHashes(w.disk, outs, e.views, |outs|, "");
    MergedRecord(MergeDiscovery(w.disk, outs, e.views, |outs|), Results(w, e), k);
  }

  /** Run j wrote the record, and every run since has kept it. */
  ghost predicate WrittenAndKept(ws: seq<World>, envs: seq<RunEnv>, n: nat, k: string, p: BankPayment, j: nat)
    requires j < n <= |envs| && |ws| == |envs| + 1
  {
    Writes(ws[j], envs[j], k, p) && forall m :: j < m < n ==> Keeps(ws[m], envs[m], k, p)
  }

  /**
   * Over any history, the state file holds a record exactly when some saved run wrote it last under its
   * key and no saved run since has written another one there or pruned it.
   */
  lemma {:induction false} StillRecordedIff(ws: seq<World>, envs: seq<RunEnv>, n: nat, k: string, p: BankPayment)
    requires History(ws, envs) && n <= |envs|
    ensures Holds(ws[n].disk, k, p) <==> exists j: nat :: j < n && WrittenAndKept(ws, envs, n, k, p, j)
  {
    hide RunOnce, Completes, Holds, Writes, Keeps;
    if n > 0 {
      var last := n - 1;
      StillRecordedIff(ws, envs, last, k, p);
      assert IsRun(ws, envs, last);
      HoldsAfter(ws[last], envs[last], k, p);
      if Writes(ws[last], envs[last], k, p) {
        assert WrittenAndKept(ws, envs, n, k, p, last);
      }
      if j: nat :| j < last && WrittenAndKept(ws, envs, last, k, p, j) {
        assert Keeps(ws[last], envs[last], k, p) ==> WrittenAndKept(ws, envs, n, k, p, j);
      }
      if j: nat :| j < n && WrittenAndKept(ws, envs, n, k, p, j) {
        assert j < last ==> WrittenAndKept(ws, envs, last, k, p, j);
      }
    } else {
      NothingHeldAtFirst(k, p);
    }
  }

  lemma NothingHeldAtFirst(k: string, p: BankPayment)
    ensures !Holds(NEW_WORLD.disk, k, p)
  {
  }

  /** Of two deposits processed on one day whose hashes begin alike, no state file ever holds both records. */
  lemma RecordLost(ws: seq<World>, envs: seq<RunEnv>, n: nat, p: BankPayment, q: BankPayment)
    requires History(ws, envs) && n <= |envs| && p != q
    requires p.processedAt / DAY == q.processedAt / DAY && Prefix(p.txHash) == Prefix(q.txHash)
    ensures !(p in ws[n].disk.bankPayments.Values && q in ws[n].disk.bankPayments.Values)
  {
    KeysAlwaysIds(ws, envs, n);
  }
}
