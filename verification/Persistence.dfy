/** The persisted state, its file, and the pruning of old entries. */
module Persistence {
  import opened Types
  import opened AuditKeys

  const RETENTION: nat := 90 * DAY

  /** The state a run works on. */
  class PersistedState {
    var bankPayments: map<string, BankPayment>
    var processedTxHashes: set<string>
    var lastSeenBlock: map<Chain, LastSeenBlock>

    constructor (st: State)
      ensures Value() == st
    {
      bankPayments := st.bankPayments;
      processedTxHashes := st.processed;
      lastSeenBlock := st.lastSeen;
    }

    function Value(): State
      reads this
    {
      State(bankPayments, processedTxHashes, lastSeenBlock)
    }
  }

  /** Where saving can fail. */
  datatype SaveFault = NoFault | DirectoryFails | WriteFails | RenameFails

  /** What can keep a file that is there from being loaded. */
  datatype LoadFault = Loadable | ReadFails | ParseFails

  /** The state file; the temporary file beside it is never read. */
  class StateFile {
    var contents: Option<State>
    var temporary: Option<State>

    function Saved(): State
      reads this
    {
      if contents.Some? then contents.value else EMPTY_STATE
    }

    /** A missing file is an empty state; one that cannot be read or parsed is an error. */
    method Load(fault: LoadFault) returns (r: Result<PersistedState>)
      ensures r.Err? <==> contents.Some? && !fault.Loadable?
      ensures r.Ok? ==> fresh(r.value) && r.value.Value() == Saved()
    {
      if contents.None? {
        var state := new PersistedState(EMPTY_STATE);
        return Ok(state);
      }
      if fault.ReadFails? {
        return Err("read failed");
      }
      if fault.ParseFails? {
        return Err("parse failed");
      }
      var state := new PersistedState(contents.value);
      r := Ok(state);
    }

    /** All or nothing: the new state is written aside and then takes the old one's place. */
    method Save(state: PersistedState, fault: SaveFault) returns (ok: bool)
      modifies this
      ensures ok <==> fault.NoFault?
      ensures contents == if ok then Some(state.Value()) else old(contents)
    {
      if fault.DirectoryFails? {
        return false;
      }
      if fault.WriteFails? {
        return false;
      }
      temporary := Some(state.Value());
      if fault.RenameFails? {
        return false;
      }
      contents, temporary := temporary, None;
      ok := true;
    }
  }

  // ---------------------------------------------------------------------------
  // Pruning
  // ---------------------------------------------------------------------------

  /** Hashes of the payments processed before the cutoff. */
  function StaleHashes(st: State, cutoff: int): set<string> {
    set k | k in st.bankPayments && st.bankPayments[k].processedAt < cutoff :: st.bankPayments[k].txHash
  }

  function Prune(st: State, cutoff: int): State {
    State(map k | k in st.bankPayments && st.bankPayments[k].processedAt >= cutoff :: st.bankPayments[k],
          st.processed - StaleHashes(st, cutoff),
          st.lastSeen)
  }

  method PruneStaleEntries(state: PersistedState, now: Time)
    modifies state
    ensures state.Value() == Prune(old(state.Value()), now - RETENTION)
  {
    var cutoff := now - RETENTION;
    var staleTxHashes := set k | k in state.bankPayments
        && state.bankPayments[k].processedAt < cutoff :: state.bankPayments[k].txHash;
    state.bankPayments := map k | k in state.bankPayments
        && state.bankPayments[k].processedAt >= cutoff :: state.bankPayments[k];
    var rest := staleTxHashes;
    while rest != {}
      invariant rest <= staleTxHashes
      invariant state.processedTxHashes == old(state.processedTxHashes) - (staleTxHashes - rest)
      invariant state.bankPayments == Prune(old(state.Value()), cutoff).bankPayments
      invariant state.lastSeenBlock == old(state.lastSeenBlock)
      decreases rest
    {
      var hash :| hash in rest;
      state.processedTxHashes := state.processedTxHashes - {hash};
      rest := rest - {hash};
    }
  }

  /** A record of exactly 90 days stays, and an older one goes, with its hash. */
  lemma NinetyDays(st: State, now: Time, k: string, h: string)
    ensures var after, days := Prune(st, now - RETENTION), 90 * 24 * 3_600 * 1_000_000_000;
            && (k in after.bankPayments <==> k in st.bankPayments && now - st.bankPayments[k].processedAt <= days)
            && (k in after.bankPayments ==> after.bankPayments[k] == st.bankPayments[k])
            && (h in after.processed
                <==> h in st.processed
                     && forall j :: j in st.bankPayments && st.bankPayments[j].txHash == h
                          ==> now - st.bankPayments[j].processedAt <= days)
            && after.lastSeen == st.lastSeen
  {
  }

  /** Pruning twice is pruning once at the later cutoff. */
  lemma PruneTwice(st: State, c1: int, c2: int)
    ensures Prune(Prune(st, c1), c2) == Prune(st, Max(c1, c2))
  {
    var c := Max(c1, c2);
    var once := Prune(st, c1);
    forall h
      ensures h in StaleHashes(st, c) <==> h in StaleHashes(st, c1) || h in StaleHashes(once, c2)
    {
      if h in StaleHashes(st, c) && h !in StaleHashes(st, c1) {
        var k :| k in st.bankPayments && st.bankPayments[k].processedAt < c && st.bankPayments[k].txHash == h;
        assert k in once.bankPayments;
      }
    }
    assert Prune(once, c2).processed == Prune(st, c).processed;
    assert Prune(once, c2).bankPayments == Prune(st, c).bankPayments;
  }

  /** Every retained audit record's hash is still in the dedup set. */
  ghost predicate HashesRemembered(st: State) {
    forall k :: k in st.bankPayments ==> st.bankPayments[k].txHash in st.processed
  }

  /** No payment processed before the cutoff has the hash of one processed later. */
  ghost predicate NoSharedHash(payments: map<string, BankPayment>, cutoff: int) {
    forall j, k :: j in payments && k in payments && payments[j].processedAt < cutoff <= payments[k].processedAt
      ==> payments[j].txHash != payments[k].txHash
  }

  /**
   * Pruning keeps the audit records and the dedup set in agreement exactly when no record it drops
   * shares its hash with a record it retains.
   */
  lemma PruneAgreesIff(st: State, cutoff: int)
    requires HashesRemembered(st)
    ensures HashesRemembered(Prune(st, cutoff)) <==> NoSharedHash(st.bankPayments, cutoff)
    ensures KeysAreIds(st.bankPayments) ==> KeysAreIds(Prune(st, cutoff).bankPayments)
  {
    var after := Prune(st, cutoff);
    if HashesRemembered(after) {
      forall j, k | j in st.bankPayments && k in st.bankPayments
        && st.bankPayments[j].processedAt < cutoff <= st.bankPayments[k].processedAt
        ensures st.bankPayments[j].txHash != st.bankPayments[k].txHash
      {
        assert k in after.bankPayments;
        assert st.bankPayments[j].txHash in StaleHashes(st, cutoff);
      }
    }
  }
}
