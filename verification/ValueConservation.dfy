/** What was liquidated is what was scanned: the ledger's value against the chain's. */
module ValueConservation {
  import opened Types
  import opened Seqs
  import opened Runs
  import opened Completeness
  import opened Coverage
  import opened AtMostOnce
  import opened TransferLedger

  // ---------------------------------------------------------------------------
  // What the chain holds
  // ---------------------------------------------------------------------------

  function TransferHash(t: Transfer): string {
    t.txHash
  }

  function TransferAmount(t: Transfer): int {
    t.amount
  }

  function NonDust(ts: seq<Transfer>): seq<Transfer> {
    if ts == [] then []
    else NonDust(ts[..|ts| - 1]) + if ts[|ts| - 1].amount >= USDC_DUST_THRESHOLD then [ts[|ts| - 1]] else []
  }

  /** The non-dust transfers to an address in those blocks from lo up to but not including hi that are picked. */
  ghost function TransfersIn(contents: Contents, a: string, pick: u64 -> bool, lo: u64, hi: u64): seq<Transfer>
    decreases hi - lo
  {
    if hi <= lo then []
    else TransfersIn(contents, a, pick, lo, hi - 1) + if pick(hi - 1) then NonDust(contents(a, hi - 1)) else []
  }

  /** All non-dust transfers to an address in the blocks from lo up to but not including hi. */
  ghost function ChainTransfers(contents: Contents, a: string, lo: u64, hi: u64): seq<Transfer> {
    TransfersIn(contents, a, (b: u64) => true, lo, hi)
  }

  /** The blocks that a saved one of the first n runs has scanned for an address while they were final. */
  ghost function ScannedBlocks(ws: seq<World>, envs: seq<RunEnv>, n: nat, c: Chain, a: string): u64 -> bool
    requires n <= |envs| && |ws| == |envs| + 1
  {
    (b: u64) => SavedScan(ws, envs, n, c, a, b)
  }

  /** No transaction makes more than one non-dust transfer. */
  ghost predicate OneTransferPerHash(canon: Chain -> Contents, origin: string -> Origin) {
    && Origins(canon, origin)
    && forall c: Chain, a: string, b: u64 :: DistinctBy(TransferHash, NonDust(canon(c)(a, b)))
  }

  lemma {:induction false} NonDustMeaning(ts: seq<Transfer>, t: Transfer)
    ensures t in NonDust(ts) <==> t in ts && t.amount >= USDC_DUST_THRESHOLD
  {
    if ts != [] {
      NonDustMeaning(ts[..|ts| - 1], t);
    }
  }

  /** A picked block from lo up to but not including hi holds the transfer. */
  ghost predicate Located(canon: Chain -> Contents, c: Chain, a: string, pick: u64 -> bool, lo: u64, hi: u64,
        t: Transfer) {
    exists b: u64 :: lo <= b < hi && pick(b) && IsTransfer(canon, c, a, b, t)
  }

  lemma LocatedStep(canon: Chain -> Contents, c: Chain, a: string, pick: u64 -> bool, lo: u64, hi: u64, t: Transfer)
    requires lo < hi
    ensures Located(canon, c, a, pick, lo, hi, t)
       <==> Located(canon, c, a, pick, lo, hi - 1, t) || (pick(hi - 1) && IsTransfer(canon, c, a, hi - 1, t))
  {
    hide IsTransfer;
    if b: u64 :| lo <= b < hi && pick(b) && IsTransfer(canon, c, a, b, t) {
      assert b < hi - 1 || b == hi - 1;
    }
  }

  lemma {:induction false} TransfersInMeaning(canon: Chain -> Contents, c: Chain, a: string, pick: u64 -> bool,
        lo: u64, hi: u64, t: Transfer)
    ensures t in TransfersIn(canon(c), a, pick, lo, hi) <==> Located(canon, c, a, pick, lo, hi, t)
    decreases hi - lo
  {
    if lo < hi {
      TransfersInMeaning(canon, c, a, pick, lo, hi - 1, t);
      LocatedStep(canon, c, a, pick, lo, hi, t);
      NonDustMeaning(canon(c)(a, hi - 1), t);
      hide Located;
    }
  }

  /** Transfers in different blocks have different hashes. */
  lemma EarlierBlockDiffers(canon: Chain -> Contents, origin: string -> Origin, c: Chain, a: string, pick: u64 -> bool,
        lo: u64, last: u64, t1: Transfer, t2: Transfer)
    requires Origins(canon, origin)
    requires t1 in TransfersIn(canon(c), a, pick, lo, last) && t2 in NonDust(canon(c)(a, last))
    ensures t1.txHash != t2.txHash
  {
    TransfersInMeaning(canon, c, a, pick, lo, last, t1);
    NonDustMeaning(canon(c)(a, last), t2);
    assert IsTransfer(canon, c, a, last, t2);
  }

  lemma {:induction false} TransfersInDistinct(canon: Chain -> Contents, origin: string -> Origin, c: Chain,
        a: string, pick: u64 -> bool, lo: u64, hi: u64)
    requires OneTransferPerHash(canon, origin)
    ensures DistinctBy(TransferHash, TransfersIn(canon(c), a, pick, lo, hi))
    decreases hi - lo
  {
    if lo < hi {
      TransfersInDistinct(canon, origin, c, a, pick, lo, hi - 1);
      var before, last := TransfersIn(canon(c), a, pick, lo, hi - 1), NonDust(canon(c)(a, hi - 1));
      forall i, j | 0 <= i < |before| && 0 <= j < |last|
        ensures TransferHash(before[i]) != TransferHash(last[j])
      {
        EarlierBlockDiffers(canon, origin, c, a, pick, lo, hi - 1, before[i], last[j]);
      }
    }
  }

  lemma {:induction false} TransfersSplit(contents: Contents, a: string, pick: u64 -> bool, lo: u64, mid: u64, hi: u64)
    requires lo <= mid <= hi
    ensures TransfersIn(contents, a, pick, lo, hi)
         == TransfersIn(contents, a, pick, lo, mid) + TransfersIn(contents, a, pick, mid, hi)
    decreases hi - mid
  {
    if mid < hi {
      TransfersSplit(contents, a, pick, lo, mid, hi - 1);
    }
  }

  lemma {:induction false} TransfersSamePick(contents: Contents, a: string, p: u64 -> bool, q: u64 -> bool, lo: u64,
        hi: u64)
    requires forall b: u64 :: lo <= b < hi ==> (p(b) <==> q(b))
    ensures TransfersIn(contents, a, p, lo, hi) == TransfersIn(contents, a, q, lo, hi)
    decreases hi - lo
  {
    if lo < hi {
      TransfersSamePick(contents, a, p, q, lo, hi - 1);
    }
  }

  lemma {:induction false} TransfersNoPick(contents: Contents, a: string, p: u64 -> bool, lo: u64, hi: u64)
    requires forall b: u64 :: lo <= b < hi ==> !p(b)
    ensures TransfersIn(contents, a, p, lo, hi) == []
    decreases hi - lo
  {
    if lo < hi {
      TransfersNoPick(contents, a, p, lo, hi - 1);
    }
  }

  // ---------------------------------------------------------------------------
  // What the ledger holds
  // ---------------------------------------------------------------------------

  /** The transfers that were liquidated for an address, in the order in which that finished. */
  function LiquidatedFor(done: seq<LiquidationResult>, c: Chain, a: string): seq<Transfer> {
    if done == [] then []
    else
      var r := done[|done| - 1];
      LiquidatedFor(done[..|done| - 1], c, a)
      + if r.payment.chain == c && r.payment.address == a then [AsTransfer(r)] else []
  }

  lemma {:induction false} LiquidatedForMeaning(done: seq<LiquidationResult>, c: Chain, a: string, t: Transfer)
    ensures t in LiquidatedFor(done, c, a) <==> InLedger(done, c, a, t)
  {
    if done != [] {
      var n := |done| - 1;
      LiquidatedForMeaning(done[..n], c, a, t);
      assert done == done[..n] + [done[n]];
      assert InLedger(done, c, a, t) <==> InLedger(done[..n], c, a, t) || ClaimOfResult(done[n]) == Claim(c, a, t) by {
        assert forall r :: r in done <==> r in done[..n] || r == done[n];
      }
    }
  }

  lemma {:induction false} LiquidatedForDistinct(done: seq<LiquidationResult>, c: Chain, a: string)
    requires DistinctBy(KeyOfResult, done)
    ensures DistinctBy(TransferHash, LiquidatedFor(done, c, a))
  {
    if done != [] {
      var n := |done| - 1;
      LiquidatedForDistinct(done[..n], c, a);
      var before := LiquidatedFor(done[..n], c, a);
      forall i | 0 <= i < |before| && done[n].payment.chain == c && done[n].payment.address == a
        ensures before[i].txHash != done[n].txHash
      {
        LiquidatedForMeaning(done[..n], c, a, before[i]);
        var r :| r in done[..n] && ClaimOfResult(r) == Claim(c, a, before[i]);
        var j :| 0 <= j < n && done[j] == r;
        assert KeyOfResult(done[j]) != KeyOfResult(done[n]);
      }
    }
  }

  // ---------------------------------------------------------------------------
  // Conservation
  // ---------------------------------------------------------------------------

  lemma {:induction false} LiquidatedForAppend(x: seq<LiquidationResult>, y: seq<LiquidationResult>, c: Chain,
        a: string)
    ensures LiquidatedFor(x + y, c, a) == LiquidatedFor(x, c, a) + LiquidatedFor(y, c, a)
  {
    if y == [] {
      assert x + y == x;
    } else {
      assert (x + y)[..|x + y| - 1] == x + y[..|y| - 1];
      LiquidatedForAppend(x, y[..|y| - 1], c, a);
    }
  }

  lemma LiquidatedForRemove(rs: seq<LiquidationResult>, k: nat, c: Chain, a: string)
    requires k < |rs|
    ensures multiset(LiquidatedFor(rs, c, a))
         == multiset(LiquidatedFor(Remove(rs, k), c, a)) + multiset(LiquidatedFor([rs[k]], c, a))
  {
    hide LiquidatedFor;
    assert rs == rs[..k] + ([rs[k]] + rs[k + 1..]);
    LiquidatedForAppend(rs[..k], [rs[k]] + rs[k + 1..], c, a);
    LiquidatedForAppend([rs[k]], rs[k + 1..], c, a);
    LiquidatedForAppend(rs[..k], rs[k + 1..], c, a);
  }

  lemma {:induction false} LiquidatedForPerm(x: seq<LiquidationResult>, y: seq<LiquidationResult>, c: Chain, a: string)
    requires multiset(x) == multiset(y)
    ensures multiset(LiquidatedFor(x, c, a)) == multiset(LiquidatedFor(y, c, a))
  {
    if x == [] {
      assert |multiset(y)| == 0;
    } else {
      hide LiquidatedFor;
      RemoveMultiset(x, 0);
      assert x[0] in multiset(y);
      var k :| 0 <= k < |y| && y[k] == x[0];
      RemoveMultiset(y, k);
      assert multiset(Remove(x, 0)) == multiset(x) - multiset{x[0]} == multiset(Remove(y, k));
      LiquidatedForPerm(Remove(x, 0), Remove(y, k), c, a);
      LiquidatedForRemove(x, 0, c, a);
      LiquidatedForRemove(y, k, c, a);
    }
  }

  /** The ledger of an address is that of the saved runs and that of the others. */
  lemma LiquidatedForSplits(ws: seq<World>, envs: seq<RunEnv>, c: Chain, a: string, n: nat)
    requires History(ws, envs) && n <= |envs|
    ensures multiset(LiquidatedFor(ws[n].done, c, a))
         == multiset(LiquidatedFor(ResultsOf(ws, envs, true, n), c, a))
            + multiset(LiquidatedFor(ResultsOf(ws, envs, false, n), c, a))
  {
    var saved, unsaved := ResultsOf(ws, envs, true, n), ResultsOf(ws, envs, false, n);
    hide LiquidatedFor, ResultsOf, History;
    LedgerSplits(ws, envs, n);
    LiquidatedForPerm(ws[n].done, saved + unsaved, c, a);
    LiquidatedForAppend(saved, unsaved, c, a);
  }

  /** One transfer per transaction, final blocks that stay, and what it takes for saved runs to repeat nothing. */
  ghost predicate Orderly(ws: seq<World>, envs: seq<RunEnv>, canon: Chain -> Contents, origin: string -> Origin,
        mayForget: bool, n: nat)
    requires n <= |envs| && |ws| == |envs| + 1
  {
    && OneTransferPerHash(canon, origin)
    && CarefulWhenSaved(ws, envs, canon, HomeIn(origin), mayForget, n)
    && forall i :: 0 <= i < n ==> SeesFinalBlocks(canon, envs[i])
  }

  /** Nothing at 2^64 - 1 or beyond is final for any run. */
  lemma ScannedBelowMax(ws: seq<World>, envs: seq<RunEnv>, n: nat, c: Chain, a: string, b: u64)
    requires n <= |envs| && |ws| == |envs| + 1 && SavedScan(ws, envs, n, c, a, b)
    ensures b < U64_MAX
  {
  }

  lemma LiquidatedWhereScanned(ws: seq<World>, envs: seq<RunEnv>, canon: Chain -> Contents, origin: string -> Origin,
        n: nat, c: Chain, a: string, t: Transfer)
    returns (b: u64)
    requires History(ws, envs) && n <= |envs| && Origins(canon, origin)
    requires forall i :: 0 <= i < n ==> SeesFinalBlocks(canon, envs[i])
    requires InLedger(ResultsOf(ws, envs, true, n), c, a, t)
    ensures b < U64_MAX && SavedScan(ws, envs, n, c, a, b) && IsTransfer(canon, c, a, b, t)
  {
    LedgerAlwaysSound(ws, envs, canon, n);
    var r :| r in ResultsOf(ws, envs, true, n) && ClaimOfResult(r) == Claim(c, a, t);
    SavedInLedger(ws, envs, n, r);
    assert Genuine(canon, r.payment.chain, r.payment.address, AsTransfer(r));
    hide SavedScan, SeesFinalBlocks, Origins, InLedger, History, IsTransfer;
    b :| IsTransfer(canon, c, a, b, t);
    SavedLiquidatedIff(ws, envs, canon, origin, n, c, a, b, t);
    ScannedBelowMax(ws, envs, n, c, a, b);
  }

  lemma LedgerMember(ws: seq<World>, envs: seq<RunEnv>, canon: Chain -> Contents, origin: string -> Origin, n: nat,
        c: Chain, a: string, t: Transfer)
    requires History(ws, envs) && n <= |envs| && Origins(canon, origin)
    requires forall i :: 0 <= i < n ==> SeesFinalBlocks(canon, envs[i])
    ensures t in LiquidatedFor(ResultsOf(ws, envs, true, n), c, a)
       <==> t in TransfersIn(canon(c), a, ScannedBlocks(ws, envs, n, c, a), 0, U64_MAX)
  {
    LiquidatedForMeaning(ResultsOf(ws, envs, true, n), c, a, t);
    TransfersInMeaning(canon, c, a, ScannedBlocks(ws, envs, n, c, a), 0, U64_MAX, t);
    hide SavedScan, SeesFinalBlocks, Origins, InLedger, LiquidatedFor, TransfersIn, History, IsTransfer, ResultsOf;
    if InLedger(ResultsOf(ws, envs, true, n), c, a, t) {
      var b := LiquidatedWhereScanned(ws, envs, canon, origin, n, c, a, t);
    }
    if b: u64 :| b < U64_MAX && ScannedBlocks(ws, envs, n, c, a)(b) && IsTransfer(canon, c, a, b, t) {
      SavedLiquidatedIff(ws, envs, canon, origin, n, c, a, b, t);
    }
  }

  lemma SavedLedgerIsScanned(ws: seq<World>, envs: seq<RunEnv>, canon: Chain -> Contents, origin: string -> Origin,
        mayForget: bool, c: Chain, a: string, n: nat)
    requires History(ws, envs) && n <= |envs| && Orderly(ws, envs, canon, origin, mayForget, n)
    ensures multiset(LiquidatedFor(ResultsOf(ws, envs, true, n), c, a))
         == multiset(TransfersIn(canon(c), a, ScannedBlocks(ws, envs, n, c, a), 0, U64_MAX))
  {
    var mine := LiquidatedFor(ResultsOf(ws, envs, true, n), c, a);
    var theirs := TransfersIn(canon(c), a, ScannedBlocks(ws, envs, n, c, a), 0, U64_MAX);
    SavedNeverRepeated(ws, envs, canon, HomeIn(origin), mayForget, n);
    LiquidatedForDistinct(ResultsOf(ws, envs, true, n), c, a);
    TransfersInDistinct(canon, origin, c, a, ScannedBlocks(ws, envs, n, c, a), 0, U64_MAX);
    forall t
      ensures t in mine <==> t in theirs
    {
      LedgerMember(ws, envs, canon, origin, n, c, a, t);
    }
    DistinctSameMembers(TransferHash, mine, theirs);
  }

  /**
   * Transfer by transfer, and as often: what was ever liquidated for an address is what the chain holds
   * for it in the blocks that saved runs have scanned, and what unsaved runs liquidated on top of that.
   */
  lemma LedgerIsWhatWasScanned(ws: seq<World>, envs: seq<RunEnv>, canon: Chain -> Contents, origin: string -> Origin,
        mayForget: bool, c: Chain, a: string, n: nat)
    requires History(ws, envs) && n <= |envs| && Orderly(ws, envs, canon, origin, mayForget, n)
    ensures multiset(LiquidatedFor(ws[n].done, c, a))
         == multiset(TransfersIn(canon(c), a, ScannedBlocks(ws, envs, n, c, a), 0, U64_MAX))
            + multiset(LiquidatedFor(ResultsOf(ws, envs, false, n), c, a))
  {
    SavedLedgerIsScanned(ws, envs, canon, origin, mayForget, c, a, n);
    LiquidatedForSplits(ws, envs, c, a, n);
  }

  /** With start blocks at s, the scanned blocks are all those from s up to the frontier, and some from there on. */
  lemma ScannedFromStart(ws: seq<World>, envs: seq<RunEnv>, canon: Chain -> Contents, c: Chain, a: string, s: u64,
        n: nat)
    requires History(ws, envs) && n <= |envs| && c in ws[n].disk.lastSeen
    requires forall i :: 0 <= i < n ==> StartsAt(envs[i], c, s) && Monitors(envs[i].cfg, a)
    ensures var L, scanned := ws[n].disk.lastSeen[c].block, ScannedBlocks(ws, envs, n, c, a);
            && s <= L < U64_MAX
            && TransfersIn(canon(c), a, scanned, 0, U64_MAX)
               == ChainTransfers(canon(c), a, s, L) + TransfersIn(canon(c), a, scanned, L, U64_MAX)
  {
    var L, scanned := ws[n].disk.lastSeen[c].block, ScannedBlocks(ws, envs, n, c, a);
    FrontierAboveStart(ws, envs, c, s, n);
    FrontierBelowSomeFloor(ws, envs, c, n);
    forall b: u64 | scanned(b)
      ensures s <= b
    {
      NothingScannedBelowStart(ws, envs, c, a, s, n, b);
    }
    forall b: u64 | s <= b < L
      ensures scanned(b)
    {
      PassedSinceStart(ws, envs, n, c, b);
      PassedMeansScanned(ws, envs, c, a, 0, n, b);
    }
    hide SavedScan, History, TransfersIn;
    TransfersNoPick(canon(c), a, scanned, 0, s);
    TransfersSamePick(canon(c), a, scanned, (b: u64) => true, s, L);
    TransfersSplit(canon(c), a, scanned, 0, s, U64_MAX);
    TransfersSplit(canon(c), a, scanned, s, L, U64_MAX);
  }

  /**
   * Conservation of value, with failed saves and kills in the history. What was ever liquidated for an
   * address is the value of its non-dust transfers from the start block up to the frontier, plus exactly
   * that of those at or above the frontier that some saved run scanned, while the frontier was held
   * back, plus what the unsaved runs liquidated, which is nothing when all runs are saved.
   */
  lemma ValueConserved(ws: seq<World>, envs: seq<RunEnv>, canon: Chain -> Contents, origin: string -> Origin,
        mayForget: bool, c: Chain, a: string, s: u64, n: nat)
    requires History(ws, envs) && n <= |envs| && Orderly(ws, envs, canon, origin, mayForget, n)
    requires forall i :: 0 <= i < n ==> StartsAt(envs[i], c, s) && Monitors(envs[i].cfg, a)
    requires c in ws[n].disk.lastSeen
    ensures var L, scanned := ws[n].disk.lastSeen[c].block, ScannedBlocks(ws, envs, n, c, a);
            Sum(TransferAmount, LiquidatedFor(ws[n].done, c, a))
            == Sum(TransferAmount, ChainTransfers(canon(c), a, s, L))
               + Sum(TransferAmount, TransfersIn(canon(c), a, scanned, L, U64_MAX))
               + Sum(TransferAmount, LiquidatedFor(ResultsOf(ws, envs, false, n), c, a))
    ensures (forall i :: 0 <= i < n ==> envs[i].fate.Saved?) ==> ResultsOf(ws, envs, false, n) == []
  {
    var L, scanned := ws[n].disk.lastSeen[c].block, ScannedBlocks(ws, envs, n, c, a);
    var behind, ahead := ChainTransfers(canon(c), a, s, L), TransfersIn(canon(c), a, scanned, L, U64_MAX);
    var unsaved := LiquidatedFor(ResultsOf(ws, envs, false, n), c, a);
    LedgerIsWhatWasScanned(ws, envs, canon, origin, mayForget, c, a, n);
    ScannedFromStart(ws, envs, canon, c, a, s, n);
    if forall i :: 0 <= i < n ==> envs[i].fate.Saved? {
      AllSavedLedger(ws, envs, n);
    }
    hide ChainTransfers, TransfersIn, LiquidatedFor, Orderly;
    SumPerm(TransferAmount, LiquidatedFor(ws[n].done, c, a), behind + ahead + unsaved);
    SumAppend(TransferAmount, behind, ahead);
    SumAppend(TransferAmount, behind + ahead, unsaved);
  }
}
