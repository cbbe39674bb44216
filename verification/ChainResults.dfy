/** Per-chain scan results and the monoid that combines them over addresses. */
module ChainResults {
  import opened Types
  import opened Seqs

  datatype ChainResult = ChainResult(
    processed: seq<string>,
    frontier: Option<u64>,
    errors: seq<ErrorReport>)
  {
    /** The frontier to persist; the identity of min is filtered out. */
    function LatestSeenBlock(): Option<u64> {
      if frontier.Some? && frontier.value != U64_MAX then frontier else None
    }

    function Add(rhs: ChainResult): ChainResult {
      ChainResult(
        processed + rhs.processed,
        if frontier.None? || rhs.frontier.None? then None else Some(Min(frontier.value, rhs.frontier.value)),
        errors + rhs.errors)
    }
  }

  const EMPTY := ChainResult([], Some(U64_MAX), [])

  /** Left fold of Add from EMPTY. */
  function Total(rs: seq<ChainResult>): ChainResult {
    if rs == [] then EMPTY else Total(rs[..|rs| - 1]).Add(rs[|rs| - 1])
  }

  lemma MonoidLaws(a: ChainResult, b: ChainResult, c: ChainResult)
    ensures a.Add(b).Add(c) == a.Add(b.Add(c))
    ensures EMPTY.Add(a) == a == a.Add(EMPTY)
  {
    assert (a.processed + b.processed) + c.processed == a.processed + (b.processed + c.processed);
    assert (a.errors + b.errors) + c.errors == a.errors + (b.errors + c.errors);
  }

  /** Results may be combined in any grouping: folding two lists and adding is folding both together. */
  lemma {:induction false} TotalAppend(a: seq<ChainResult>, b: seq<ChainResult>)
    ensures Total(a + b) == Total(a).Add(Total(b))
  {
    if b == [] {
      assert a + b == a;
      MonoidLaws(Total(a), EMPTY, EMPTY);
    } else {
      var n := |b| - 1;
      assert (a + b)[..|a + b| - 1] == a + b[..n];
      TotalAppend(a, b[..n]);
      MonoidLaws(Total(a), Total(b[..n]), b[n]);
    }
  }

  /** m is the smallest of the frontiers, all of which are known. */
  ghost predicate IsMinimum(m: u64, rs: seq<ChainResult>) {
    && (forall i :: 0 <= i < |rs| ==> rs[i].frontier.Some? && m <= rs[i].frontier.value)
    && (exists i :: 0 <= i < |rs| && rs[i].frontier == Some(m))
  }

  lemma {:induction false} TotalFrontier(rs: seq<ChainResult>)
    ensures Total(rs).frontier.Some? <==> forall i :: 0 <= i < |rs| ==> rs[i].frontier.Some?
    ensures Total(rs).frontier.Some? ==>
              if rs == [] then Total(rs).frontier.value == U64_MAX else IsMinimum(Total(rs).frontier.value, rs)
  {
    if rs != [] {
      var n := |rs| - 1;
      TotalFrontier(rs[..n]);
      assert forall i :: 0 <= i < n ==> rs[..n][i] == rs[i];
      var t := Total(rs[..n]).frontier;
      if t.Some? && rs[n].frontier.Some? && n > 0 && t.value < rs[n].frontier.value {
        var i :| 0 <= i < n && rs[..n][i].frontier == Some(t.value);
        assert rs[i].frontier == Some(t.value);
      }
    }
  }

  /**
   * The fold records m exactly when there is an address, every address reported a frontier, and m
   * is their minimum (and not the sentinel). One address that failed outright records nothing.
   */
  lemma TotalRecords(rs: seq<ChainResult>, m: u64)
    ensures Total(rs).LatestSeenBlock() == Some(m) <==> rs != [] && IsMinimum(m, rs) && m != U64_MAX
  {
    TotalFrontier(rs);
    if IsMinimum(m, rs) {
      var i :| 0 <= i < |rs| && rs[i].frontier == Some(m);
      var j :| 0 <= j < |rs| && rs[j].frontier == Some(Total(rs).frontier.value);
    }
  }

  /** Hashes and errors of the fold are those of the parts, in order. */
  lemma {:induction false} TotalConcats(rs: seq<ChainResult>)
    ensures Total(rs).processed == Concat(Map((r: ChainResult) => r.processed, rs))
    ensures Total(rs).errors == Concat(Map((r: ChainResult) => r.errors, rs))
  {
    if rs != [] {
      var n := |rs| - 1;
      TotalConcats(rs[..n]);
      ConcatLast((r: ChainResult) => r.processed, rs);
      ConcatLast((r: ChainResult) => r.errors, rs);
    }
  }

  lemma ConcatLast<T>(f: ChainResult -> seq<T>, rs: seq<ChainResult>)
    requires rs != []
    ensures Concat(Map(f, rs)) == Concat(Map(f, rs[..|rs| - 1])) + f(rs[|rs| - 1])
  {
    var n := |rs| - 1;
    assert Map(f, rs) == Map(f, rs[..n]) + [f(rs[n])];
    ConcatAppend(Map(f, rs[..n]), [f(rs[n])]);
    assert Concat([f(rs[n])]) == f(rs[n]);
  }
}
