/** The chunked scan for USDC receives, which may stop part-way when the RPC node fails. */
module Explorer {
  import opened Types

  /**
   * Everything outside the program that one address scan meets: which requested ranges the
   * node fails on, and what the clock says at the points where the scan reads it.
   */
  datatype ScanEnv = ScanEnv(
    down: Request -> bool,
    fetchedAt: Time,
    checkedAt: Time,
    clock: nat -> Time)

  /** One eth_getLogs request for an inclusive block range. */
  datatype Request = Request(from: u64, upto: u64)

  datatype FetchOk = FetchOk(receives: seq<UsdcReceive>, frontier: u64)

  function Stamp(ts: seq<Transfer>, b: u64, at: Time): (r: seq<UsdcReceive>)
    ensures |r| == |ts|
    ensures forall i :: 0 <= i < |ts| ==> r[i] == UsdcReceive(ts[i].txHash, ts[i].amount, b, at)
  {
    seq(|ts|, i requires 0 <= i < |ts| => UsdcReceive(ts[i].txHash, ts[i].amount, b, at))
  }

  /** All receives of an address in the blocks from .. to, in chain order: one unlimited query. */
  function Receives(contents: Contents, address: string, from: u64, to: int, at: Time): seq<UsdcReceive>
    requires to <= U64_MAX
    decreases 1 + to - from
  {
    if to < from then [] else Receives(contents, address, from, to - 1, at) + Stamp(contents(address, to), to, at)
  }

  lemma {:induction false} ReceivesSplit(contents: Contents, address: string, from: u64, mid: int, to: int, at: Time)
    requires from <= mid + 1 && 0 <= mid + 1 <= U64_MAX && mid <= to <= U64_MAX
    ensures Receives(contents, address, from, to, at)
         == Receives(contents, address, from, mid, at) + Receives(contents, address, mid + 1, to, at)
    decreases 0 + to - mid
  {
    if mid < to {
      ReceivesSplit(contents, address, from, mid, to - 1, at);
    }
  }

  /** A receive is in the query result exactly when its transfer is in its block on chain. */
  lemma {:induction false} ReceivesMeaning(contents: Contents, address: string, from: u64, to: int, at: Time,
        r: UsdcReceive)
    requires to <= U64_MAX
    ensures r in Receives(contents, address, from, to, at)
       <==> from <= r.block <= to && r.fetchedAt == at && Transfer(r.txHash, r.amount) in contents(address, r.block)
    decreases 1 + to - from
  {
    if from <= to {
      ReceivesMeaning(contents, address, from, to - 1, at, r);
      var ts := contents(address, to);
      if r.block == to && r.fetchedAt == at && Transfer(r.txHash, r.amount) in ts {
        var i :| 0 <= i < |ts| && ts[i] == Transfer(r.txHash, r.amount);
        assert Stamp(ts, to, at)[i] == r;
      }
    }
  }

  function ChunkEnd(from: u64, to: u64, size: u64): (r: u64)
    requires 1 <= size
    ensures from <= to ==> from <= r <= to
  {
    Min(SatAdd(from, size - 1), to)
  }

  function NextRequest(from: u64, to: u64, size: u64): Request
    requires 1 <= size
  {
    Request(from, ChunkEnd(from, to, size))
  }

  /** First block that the scan does not get past: to + 1 when no chunk fails. */
  function StopBlock(down: Request -> bool, from: nat, to: u64, size: u64): (stop: nat)
    requires 1 <= size
    ensures from <= to + 1 ==> from <= stop <= to + 1
    decreases 1 + to - from
  {
    if to < from || down(NextRequest(from, to, size)) then from
    else StopBlock(down, ChunkEnd(from, to, size) + 1, to, size)
  }

  /** What a scan must return: one query over the blocks it got through, or an error without progress. */
  function Fetch(contents: Contents, address: string, env: ScanEnv, since: u64, to: u64, size: u64): Result<FetchOk>
    requires 1 <= size
  {
    if to < since then Ok(FetchOk([], to))
    else
      var stop := StopBlock(env.down, since, to, size);
      if stop == since then Err("get_logs failed")
      else Ok(FetchOk(Receives(contents, address, since, stop - 1, env.fetchedAt), stop - 1))
  }

  /** Requests that start at `since` and follow one another without gap or overlap, cut at `size` blocks. */
  ghost predicate Tiles(calls: seq<Request>, since: u64, to: u64, size: u64)
    requires 1 <= size
  {
    && (calls != [] ==> calls[0].from == since)
    && (forall k :: 0 <= k < |calls| - 1 ==> calls[k + 1].from == calls[k].upto + 1)
    && (forall k :: 0 <= k < |calls| ==> calls[k].upto == ChunkEnd(calls[k].from, to, size))
  }

  function CeilDiv(a: nat, b: nat): nat
    requires 1 <= b
  {
    (a + b - 1) / b
  }

  lemma MulAtLeast(k: int, b: nat)
    requires 1 <= k
    ensures k * b >= b
  {
  }

  lemma CeilDivIs(a: nat, b: nat, n: nat)
    requires 1 <= b && 1 <= n && (n - 1) * b < a <= n * b
    ensures CeilDiv(a, b) == n
  {
    var q := (a + b - 1) / b;
    assert q * b <= a + b - 1 < q * b + b;
    assert (q - n) * b == q * b - n * b && (n - q) * b == n * b - q * b && (n - 1) * b == n * b - b;
    if 1 <= q - n {
      MulAtLeast(q - n, b);
    }
    if 1 <= n - q {
      MulAtLeast(n - q, b);
    }
  }

  lemma {:induction false} TileStart(calls: seq<Request>, since: u64, to: u64, size: u64, k: nat)
    requires 1 <= size && k < |calls| && Tiles(calls, since, to, size)
    requires forall i :: 0 <= i < k ==> calls[i].upto < to
    ensures calls[k].from == since + k * size
  {
    if k > 0 {
      TileStart(calls, since, to, size, k - 1);
      assert calls[k - 1].upto == calls[k - 1].from + size - 1;
      assert k * size == (k - 1) * size + size;
    }
  }

  /** A tiling that reaches `to` in its last request has exactly ceil(window / size) requests. */
  lemma TileCount(calls: seq<Request>, since: u64, to: u64, size: u64)
    requires 1 <= size && calls != [] && Tiles(calls, since, to, size)
    requires forall k :: 0 <= k < |calls| - 1 ==> calls[k].upto < to
    requires calls[|calls| - 1].from <= to == calls[|calls| - 1].upto
    requires since <= to < U64_MAX
    ensures |calls| == CeilDiv(to + 1 - since, size)
  {
    var n := |calls|;
    TileStart(calls, since, to, size, n - 1);
    assert n * size == (n - 1) * size + size;
    CeilDivIs(to + 1 - since, size, n);
  }

  /** All requests so far were answered, and together they cover exactly since .. from - 1. */
  ghost predicate Answered(calls: seq<Request>, down: Request -> bool, since: u64, from: int, to: u64, size: u64)
    requires 1 <= size
  {
    && Tiles(calls, since, to, size)
    && (forall k :: 0 <= k < |calls| ==> !down(calls[k]) && calls[k].from <= to)
    && (forall k :: 0 <= k < |calls| - 1 ==> calls[k].upto < to)
    && from == (if calls == [] then since as int else calls[|calls| - 1].upto as int + 1)
  }

  lemma TilesMore(calls: seq<Request>, since: u64, from: u64, to: u64, size: u64)
    requires 1 <= size && Tiles(calls, since, to, size)
    requires from == (if calls == [] then since as int else calls[|calls| - 1].upto as int + 1)
    ensures Tiles(calls + [NextRequest(from, to, size)], since, to, size)
  {
    var more := calls + [NextRequest(from, to, size)];
    forall k | 0 <= k < |more| - 1
      ensures more[k + 1].from == more[k].upto + 1
    {
      if k + 1 < |calls| {
        assert calls[k + 1].from == calls[k].upto + 1;
      }
    }
  }

  lemma AnswerMore(calls: seq<Request>, down: Request -> bool, since: u64, from: u64, to: u64, size: u64)
    requires 1 <= size && from <= to && Answered(calls, down, since, from, to, size)
    ensures var q := NextRequest(from, to, size);
            && Tiles(calls + [q], since, to, size)
            && (!down(q) ==> Answered(calls + [q], down, since, q.upto + 1, to, size))
  {
    TilesMore(calls, since, from, to, size);
    hide Tiles;
  }

  /** The requests a scan made account for its result. */
  ghost predicate Accounts(calls: seq<Request>, r: Result<FetchOk>, down: Request -> bool, since: u64, to: u64,
        size: u64)
    requires 1 <= size
  {
    && Tiles(calls, since, to, size)
    && (forall k :: 0 <= k < |calls| ==>
          calls[k].from <= to && (down(calls[k]) <==> k == |calls| - 1 && !(r.Ok? && r.value.frontier == to)))
    && match r
       case Err(_) => |calls| == 1
       case Ok(f) =>
         if f.frontier == to then |calls| == if to < since then 0 else CeilDiv(to + 1 - since, size)
         else |calls| >= 2 && f.frontier == calls[|calls| - 2].upto
  }

  lemma AccountsWhenFailed(calls: seq<Request>, r: Result<FetchOk>, down: Request -> bool, since: u64, from: u64,
        to: u64, size: u64)
    requires 1 <= size && from <= to && Answered(calls, down, since, from, to, size)
    requires down(NextRequest(from, to, size))
    requires if calls == [] then r.Err? else r.Ok? && r.value.frontier == from - 1
    ensures Accounts(calls + [NextRequest(from, to, size)], r, down, since, to, size)
  {
    AnswerMore(calls, down, since, from, to, size);
  }

  lemma AccountsWhenDone(calls: seq<Request>, r: Result<FetchOk>, down: Request -> bool, since: u64, from: u64,
        to: u64, size: u64)
    requires 1 <= size && to < U64_MAX && to < from && Answered(calls, down, since, from, to, size)
    requires r.Ok? && r.value.frontier == to
    ensures calls != [] ==> from == to + 1
    ensures Accounts(calls, r, down, since, to, size)
  {
    if calls != [] {
      TileCount(calls, since, to, size);
    }
  }

  /** The loop variable after n iterations; None once the loop has been left. */
  function LoopHead(down: Request -> bool, since: u64, to: u64, size: u64, n: nat): Option<u64>
    requires 1 <= size
  {
    if n == 0 then Some(since)
    else
      match LoopHead(down, since, to, size, n - 1)
      case None => None
      case Some(from) =>
        if to < from || down(NextRequest(from, to, size)) then None
        else Some(SatAdd(ChunkEnd(from, to, size), 1))
  }

  ghost predicate Halts(down: Request -> bool, since: u64, to: u64, size: u64)
    requires 1 <= size
  {
    exists n: nat :: LoopHead(down, since, to, size, n) == None
  }

  ghost predicate SomeRequestFails(down: Request -> bool, since: u64, to: u64, size: u64)
    requires 1 <= size
  {
    exists n: nat ::
      var head := LoopHead(down, since, to, size, n);
      head.Some? && head.value <= to && down(NextRequest(head.value, to, size))
  }

  /** The receives collected so far are the query over since .. at - 1, and the scan is still going. */
  ghost predicate Collected(receives: seq<UsdcReceive>, contents: Contents, address: string, env: ScanEnv,
        since: u64, at: nat, to: u64, size: u64)
    requires 1 <= size
  {
    && since <= at && (at == since || at <= to + 1)
    && receives == Receives(contents, address, since, at - 1, env.fetchedAt)
    && StopBlock(env.down, since, to, size) == StopBlock(env.down, at, to, size)
  }

  lemma NothingYet(contents: Contents, address: string, env: ScanEnv, since: u64, to: u64, size: u64)
    requires 1 <= size
    ensures Collected([], contents, address, env, since, since, to, size)
    ensures Answered([], env.down, since, since, to, size)
  {
  }

  lemma CollectMore(receives: seq<UsdcReceive>, contents: Contents, address: string, env: ScanEnv, since: u64,
        from: u64, to: u64, size: u64)
    requires 1 <= size && from <= to
    requires Collected(receives, contents, address, env, since, from, to, size)
            && !env.down(NextRequest(from, to, size))
    ensures var end := ChunkEnd(from, to, size);
            Collected(receives + Receives(contents, address, from, end, env.fetchedAt), contents, address, env,
                since, end + 1, to, size)
  {
    ReceivesSplit(contents, address, since, from - 1, ChunkEnd(from, to, size), env.fetchedAt);
  }

  lemma CollectedIsFetch(receives: seq<UsdcReceive>, contents: Contents, address: string, env: ScanEnv, since: u64,
        at: nat, to: u64, size: u64)
    requires 1 <= size
    requires Collected(receives, contents, address, env, since, at, to, size)
    requires to < at || env.down(NextRequest(at, to, size))
    ensures Fetch(contents, address, env, since, to, size)
         == if at == since then (if to < since then Ok(FetchOk([], to)) else Err("get_logs failed"))
            else Ok(FetchOk(receives, at - 1))
    ensures at == since ==> receives == []
  {
  }

  lemma {:induction false} LeftForGood(down: Request -> bool, since: u64, to: u64, size: u64, n: nat, m: nat)
    requires 1 <= size && n <= m && LoopHead(down, since, to, size, n) == None
    ensures LoopHead(down, since, to, size, m) == None
  {
    if n < m {
      LeftForGood(down, since, to, size, n, m - 1);
    }
  }

  /** At 2^64 - 1 the loop variable saturates: the last request is made again, so a scan that halts has it fail. */
  lemma {:induction false} StuckAtMax(down: Request -> bool, since: u64, size: u64, n: nat, m: nat)
    requires 1 <= size && n <= m && LoopHead(down, since, U64_MAX, size, n) == Some(U64_MAX)
    requires !down(NextRequest(U64_MAX, U64_MAX, size))
    ensures LoopHead(down, since, U64_MAX, size, m) == Some(U64_MAX)
  {
    if n < m {
      StuckAtMax(down, since, size, n, m - 1);
    }
  }

  /**
   * The chunk loop, on every window on which it halts (HaltsIff). It returns what one query over the
   * scanned blocks would return; and on windows that end below 2^64 - 1 its requests tile the window: no
   * gap, no overlap, none longer than `size`, and exactly ceil(window / size) of them when all succeed.
   */
  method FetchUsdcReceives(contents: Contents, address: string, env: ScanEnv, since: u64, to: u64, size: u64)
    returns (r: Result<FetchOk>, calls: seq<Request>)
    requires 1 <= size && Halts(env.down, since, to, size)
    ensures r == Fetch(contents, address, env, since, to, size)
    ensures to < U64_MAX ==> Accounts(calls, r, env.down, since, to, size)
  {
    hide Receives, StopBlock, Fetch, Answered, Accounts, Collected, Tiles;
    NothingYet(contents, address, env, since, to, size);
    var receives := [];
    var lastChunkEnd: Option<u64> := None;
    calls := [];
    var from: u64 := since;
    ghost var at: nat, n: nat := since, 0;
    ghost var last: nat :| LoopHead(env.down, since, to, size, last) == None;
    while from <= to
      invariant since <= at && (at == since || at <= to + 1) && from == Min(at, U64_MAX)
      invariant calls == [] <==> at == since
      invariant lastChunkEnd == if at == since then None else Some(at - 1)
      invariant Collected(receives, contents, address, env, since, at, to, size)
      invariant at <= U64_MAX ==> Answered(calls, env.down, since, at, to, size)
      invariant LoopHead(env.down, since, to, size, n) == Some(from) && n < last
      decreases last - n
    {
      var chunkEnd := ChunkEnd(from, to, size);
      var request := Request(from, chunkEnd);
      if env.down(request) {
        CollectedIsFetch(receives, contents, address, env, since, at, to, size);
        r := if lastChunkEnd.None? then Err("get_logs failed") else Ok(FetchOk(receives, lastChunkEnd.value));
        if at <= U64_MAX {
          AccountsWhenFailed(calls, r, env.down, since, from, to, size);
        }
        calls := calls + [request];
        return;
      }
      if U64_MAX < at {
        StuckAtMax(env.down, since, size, n, last);
        assert false;
      }
      CollectMore(receives, contents, address, env, since, from, to, size);
      AnswerMore(calls, env.down, since, from, to, size);
      calls := calls + [request];
      receives := receives + Receives(contents, address, from, chunkEnd, env.fetchedAt);
      lastChunkEnd := Some(chunkEnd);
      from := SatAdd(chunkEnd, 1);
      at, n := chunkEnd as int + 1, n + 1;
      if last <= n {
        LeftForGood(env.down, since, to, size, last, n);
        assert false;
      }
    }
    CollectedIsFetch(receives, contents, address, env, since, at, to, size);
    r := Ok(FetchOk(receives, if lastChunkEnd.Some? then lastChunkEnd.value else to));
    AccountsWhenDone(calls, r, env.down, since, from, to, size);
  }

  lemma {:induction false} LoopAdvances(down: Request -> bool, since: u64, to: u64, size: u64, n: nat)
    requires 1 <= size && to < U64_MAX
    ensures LoopHead(down, since, to, size, n) == None || LoopHead(down, since, to, size, n).value >= since + n
  {
    if n > 0 {
      LoopAdvances(down, since, to, size, n - 1);
    }
  }

  lemma {:induction false} LoopStaysAtMax(down: Request -> bool, since: u64, size: u64, n: nat)
    requires 1 <= size && !SomeRequestFails(down, since, U64_MAX, size)
    ensures LoopHead(down, since, U64_MAX, size, n).Some?
  {
    if n > 0 {
      LoopStaysAtMax(down, since, size, n - 1);
    }
  }

  /** The chunk loop ends exactly when the window stops short of 2^64 - 1 or a request fails. */
  lemma HaltsIff(down: Request -> bool, since: u64, to: u64, size: u64)
    requires 1 <= size
    ensures Halts(down, since, to, size) <==> to < U64_MAX || SomeRequestFails(down, since, to, size)
  {
    if to < U64_MAX {
      LoopAdvances(down, since, to, size, U64_MAX + 1);
      assert LoopHead(down, since, to, size, U64_MAX + 1) == None;
    } else if SomeRequestFails(down, since, to, size) {
      var n: nat :|
        var head := LoopHead(down, since, to, size, n);
        head.Some? && head.value <= to && down(NextRequest(head.value, to, size));
      assert LoopHead(down, since, to, size, n + 1) == None;
    } else {
      forall n: nat ensures LoopHead(down, since, to, size, n) != None {
        LoopStaysAtMax(down, since, size, n);
      }
    }
  }

  /** What a successful fetch tells the caller. Where it stops short, the next request is the one that failed. */
  lemma FetchMeaning(contents: Contents, address: string, env: ScanEnv, since: u64, to: u64, size: u64)
    requires 1 <= size
    ensures var r := Fetch(contents, address, env, since, to, size);
            && (r.Err? <==> since <= to && env.down(NextRequest(since, to, size)))
            && (r.Ok? ==> r.value.frontier <= to)
            && (r.Ok? && to < since ==> r.value == FetchOk([], to))
            && (r.Ok? && since <= to ==>
                  && ChunkEnd(since, to, size) <= r.value.frontier
                  && r.value.receives == Receives(contents, address, since, r.value.frontier, env.fetchedAt))
            && (r.Ok? && r.value.frontier < to ==> env.down(NextRequest(r.value.frontier + 1, to, size)))
            && ((forall q :: !env.down(q)) ==> r.Ok? && r.value.frontier == to)
  {
    if since <= to {
      if !env.down(NextRequest(since, to, size)) {
        assert StopBlock(env.down, since, to, size) == StopBlock(env.down, ChunkEnd(since, to, size) + 1, to, size);
      }
      StopIsDown(env.down, since, to, size);
      if forall q :: !env.down(q) {
        StopWithoutOutage(env.down, since, to, size);
      }
    }
  }

  lemma {:induction false} StopIsDown(down: Request -> bool, from: nat, to: u64, size: u64)
    requires 1 <= size && from <= to + 1
    ensures var stop := StopBlock(down, from, to, size);
            stop <= to ==> down(NextRequest(stop, to, size))
    decreases 1 + to - from
  {
    if from <= to && !down(NextRequest(from, to, size)) {
      StopIsDown(down, ChunkEnd(from, to, size) + 1, to, size);
    }
  }

  lemma {:induction false} StopWithoutOutage(down: Request -> bool, from: nat, to: u64, size: u64)
    requires 1 <= size && from <= to + 1 && forall q :: !down(q)
    ensures StopBlock(down, from, to, size) == to + 1
    decreases 1 + to - from
  {
    if from <= to {
      StopWithoutOutage(down, ChunkEnd(from, to, size) + 1, to, size);
    }
  }
}
