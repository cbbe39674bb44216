/**
 * The discovery-to-worker pipeline as a transition system: concurrent address scans feed a bounded
 * channel, and a worker keeps up to five liquidations in flight. A schedule is any sequence of
 * steps; a step that is not enabled changes nothing.
 */
module Pipeline {
  import opened Types
  import opened Seqs
  import opened Worker

  const CHANNEL_CAPACITY: nat := 32

  /** One address scan: still fetching, sending what it found, or finished with its sender dropped. */
  datatype Producer = Fetching(found: seq<Job>) | Sending(pending: seq<Job>) | Ended

  datatype Done = Done(job: Job, result: LiquidationResult)

  datatype Pipe = Pipe(
    producers: seq<Producer>,
    sent: seq<Job>,
    queue: seq<Job>,
    active: seq<Active>,
    results: seq<Done>,
    exited: bool,
    calls: seq<Call>)

  datatype Step =
    | Fetched(p: nat)
    | Send(p: nat)
    | SendFails(p: nat)
    | End(p: nat)
    | StartJob
    | RunJob(k: nat)
    | Collect(k: nat)
    | Exit

  function Start(found: seq<seq<Job>>): Pipe {
    Pipe(seq(|found|, i requires 0 <= i < |found| => Fetching(found[i])), [], [], [], [], false, [])
  }

  /** All senders dropped and nothing left to do. */
  predicate Drained(s: Pipe) {
    (forall p :: 0 <= p < |s.producers| ==> s.producers[p].Ended?) && s.queue == [] && s.active == []
  }

  predicate HasPending(s: Pipe, p: nat) {
    p < |s.producers| && s.producers[p].Sending? && s.producers[p].pending != []
  }

  predicate Enabled(s: Pipe, step: Step) {
    match step
    case Fetched(p) => p < |s.producers| && s.producers[p].Fetching?
    case Send(p) => HasPending(s, p) && !s.exited && |s.queue| < CHANNEL_CAPACITY
    case SendFails(p) => HasPending(s, p) && s.exited
    case End(p) => p < |s.producers| && s.producers[p] == Sending([])
    case StartJob => !s.exited && s.queue != [] && |s.active| < MAX_CONCURRENT_JOBS
    case RunJob(k) => k < |s.active| && !s.active[k].stage.Finished?
    case Collect(k) => k < |s.active| && s.active[k].stage.Finished?
    case Exit => !s.exited && Drained(s)
  }

  function Next(x: Exchange, maxAuto: int, s: Pipe, step: Step): Pipe {
    if !Enabled(s, step) then s
    else
      match step
      case Fetched(p) => s.(producers := s.producers[p := Sending(s.producers[p].found)])
      case Send(p) =>
        var jobs := s.producers[p].pending;
        s.(producers := s.producers[p := Sending(jobs[1..])], sent := s.sent + [jobs[0]], queue := s.queue + [jobs[0]])
      case SendFails(p) => s.(producers := s.producers[p := Sending(s.producers[p].pending[1..])])
      case End(p) => s.(producers := s.producers[p := Ended])
      case StartJob => s.(queue := s.queue[1..], active := s.active + [Active(s.queue[0], Started)])
      case RunJob(k) =>
        var next := Advance(x, maxAuto, s.active[k]);
        s.(active := s.active[k := next.active], calls := s.calls + next.calls)
      case Collect(k) =>
        var a := s.active[k];
        s.(active := Remove(s.active, k), results := s.results + [Done(a.job, ResultFor(a.job.deposit,
            a.stage.outcome))])
      case Exit => s.(exited := true)
  }

  function Run(x: Exchange, maxAuto: int, s: Pipe, steps: seq<Step>): Pipe {
    if steps == [] then s else Next(x, maxAuto, Run(x, maxAuto, s, steps[..|steps| - 1]), steps[|steps| - 1])
  }

  // ---------------------------------------------------------------------------
  // Nothing is lost or duplicated
  // ---------------------------------------------------------------------------

  function IdOf(j: Job): JobId {
    j.id
  }

  function LeftIn(p: Producer): seq<Job> {
    match p
    case Fetching(found) => found
    case Sending(pending) => pending
    case Ended => []
  }

  function ActiveJob(a: Active): Job {
    a.job
  }

  function DoneJob(d: Done): Job {
    d.job
  }

  function Unsent(s: Pipe): seq<Job> {
    Concat(Map(LeftIn, s.producers))
  }

  /** The jobs the worker's side holds: queued, in flight or finished. */
  function InWorker(s: Pipe): multiset<Job> {
    multiset(s.queue) + multiset(Map(ActiveJob, s.active)) + multiset(Map(DoneJob, s.results))
  }

  /** Every job is in exactly one place: with its producer, queued, in flight or finished. */
  ghost predicate Conserved(found: seq<seq<Job>>, s: Pipe) {
    && multiset(Unsent(s)) + multiset(s.sent) == multiset(Concat(found))
    && multiset(s.sent) == InWorker(s)
    && |s.queue| <= CHANNEL_CAPACITY
    && |s.active| <= MAX_CONCURRENT_JOBS
    && (s.exited ==> Drained(s))
  }

  lemma ProducerStep(s: Pipe, p: nat, to: Producer)
    requires p < |s.producers|
    ensures var after := Map(LeftIn, s.producers[p := to]);
            multiset(Concat(after)) + multiset(LeftIn(s.producers[p])) == multiset(Unsent(s)) + multiset(LeftIn(to))
  {
    ConcatUpdate(Map(LeftIn, s.producers), p, LeftIn(to));
    MapUpdate(LeftIn, s.producers, p, to);
  }

  lemma SameUnsent(s: Pipe, p: nat, to: Producer)
    requires p < |s.producers| && LeftIn(to) == LeftIn(s.producers[p])
    ensures Concat(Map(LeftIn, s.producers[p := to])) == Unsent(s)
  {
    assert Map(LeftIn, s.producers[p := to]) == Map(LeftIn, s.producers);
  }

  lemma StartConserved(found: seq<seq<Job>>)
    ensures Conserved(found, Start(found))
  {
    assert Map(LeftIn, Start(found).producers) == found;
  }

  lemma SendUnsent(s: Pipe, p: nat)
    requires HasPending(s, p)
    ensures var jobs := s.producers[p].pending;
            multiset(Concat(Map(LeftIn,
                s.producers[p := Sending(jobs[1..])]))) + multiset{jobs[0]} == multiset(Unsent(s))
  {
    var jobs := s.producers[p].pending;
    HeadMultiset(jobs);
    ProducerStep(s, p, Sending(jobs[1..]));
    var after := multiset(Concat(Map(LeftIn, s.producers[p := Sending(jobs[1..])])));
    assert (after + multiset{jobs[0]}) + multiset(jobs[1..]) == multiset(Unsent(s)) + multiset(jobs[1..]);
    assert after + multiset{jobs[0]} == multiset(Unsent(s)) + multiset(jobs[1..]) - multiset(jobs[1..]);
  }

  lemma StartJobBag(queue: seq<Job>, active: seq<Active>)
    requires queue != []
    ensures multiset(queue[1..]) + multiset(Map(ActiveJob, active + [Active(queue[0], Started)]))
         == multiset(queue) + multiset(Map(ActiveJob, active))
  {
    HeadMultiset(queue);
    MapAppend(ActiveJob, active, Active(queue[0], Started));
  }

  lemma CollectBag(active: seq<Active>, results: seq<Done>, k: nat, d: Done)
    requires k < |active| && d.job == active[k].job
    ensures multiset(Map(ActiveJob, Remove(active, k))) + multiset(Map(DoneJob, results + [d]))
         == multiset(Map(ActiveJob, active)) + multiset(Map(DoneJob, results))
  {
    MapRemove(ActiveJob, active, k);
    MapAppend(DoneJob, results, d);
  }

  lemma SendKeepsConserved(x: Exchange, maxAuto: int, found: seq<seq<Job>>, s: Pipe, p: nat)
    requires Conserved(found, s) && Enabled(s, Send(p))
    ensures Conserved(found, Next(x, maxAuto, s, Send(p)))
  {
    SendUnsent(s, p);
    var next := Next(x, maxAuto, s, Send(p));
    var job := s.producers[p].pending[0];
    assert multiset(next.sent) == multiset(s.sent) + multiset{job};
    assert InWorker(next) == InWorker(s) + multiset{job};
  }

  lemma StartJobKeepsConserved(x: Exchange, maxAuto: int, found: seq<seq<Job>>, s: Pipe)
    requires Conserved(found, s) && Enabled(s, StartJob)
    ensures Conserved(found, Next(x, maxAuto, s, StartJob))
  {
    StartJobBag(s.queue, s.active);
    assert Unsent(Next(x, maxAuto, s, StartJob)) == Unsent(s);
  }

  lemma CollectKeepsConserved(x: Exchange, maxAuto: int, found: seq<seq<Job>>, s: Pipe, k: nat)
    requires Conserved(found, s) && Enabled(s, Collect(k))
    ensures Conserved(found, Next(x, maxAuto, s, Collect(k)))
  {
    var next := Next(x, maxAuto, s, Collect(k));
    CollectBag(s.active, s.results, k, next.results[|s.results|]);
    assert InWorker(next) == multiset(s.queue) + (multiset(Map(ActiveJob, next.active)) + multiset(Map(DoneJob,
        next.results)));
    assert Unsent(next) == Unsent(s);
  }

  lemma PassingKeepsConserved(x: Exchange, maxAuto: int, found: seq<seq<Job>>, s: Pipe, step: Step)
    requires Conserved(found, s) && Enabled(s, step) && (step.Fetched? || step.End?)
    ensures Conserved(found, Next(x, maxAuto, s, step))
  {
    SameUnsent(s, step.p, if step.Fetched? then Sending(s.producers[step.p].found) else Ended);
  }

  lemma NoSendFails(found: seq<seq<Job>>, s: Pipe, p: nat)
    requires Conserved(found, s)
    ensures !Enabled(s, SendFails(p))
  {
  }

  lemma RunJobKeepsConserved(x: Exchange, maxAuto: int, found: seq<seq<Job>>, s: Pipe, k: nat)
    requires Conserved(found, s) && Enabled(s, RunJob(k))
    ensures Conserved(found, Next(x, maxAuto, s, RunJob(k)))
  {
    var next := Next(x, maxAuto, s, RunJob(k));
    assert Map(ActiveJob, next.active) == Map(ActiveJob, s.active);
    assert Unsent(next) == Unsent(s);
  }

  lemma ExitKeepsConserved(x: Exchange, maxAuto: int, found: seq<seq<Job>>, s: Pipe)
    requires Conserved(found, s) && Enabled(s, Exit)
    ensures Conserved(found, Next(x, maxAuto, s, Exit))
  {
  }

  lemma NextKeepsConserved(x: Exchange, maxAuto: int, found: seq<seq<Job>>, s: Pipe, step: Step)
    requires Conserved(found, s)
    ensures Conserved(found, Next(x, maxAuto, s, step))
  {
    if Enabled(s, step) {
      hide Next, Conserved;
      match step {
        case Fetched(_) => PassingKeepsConserved(x, maxAuto, found, s, step);
        case Send(p) => SendKeepsConserved(x, maxAuto, found, s, p);
        case SendFails(p) => NoSendFails(found, s, p);
        case End(_) => PassingKeepsConserved(x, maxAuto, found, s, step);
        case StartJob => StartJobKeepsConserved(x, maxAuto, found, s);
        case RunJob(k) => RunJobKeepsConserved(x, maxAuto, found, s, k);
        case Collect(k) => CollectKeepsConserved(x, maxAuto, found, s, k);
        case Exit => ExitKeepsConserved(x, maxAuto, found, s);
      }
    }
  }

  /** In every reachable state jobs are conserved, the channel holds at most 32 and at most 5 run. */
  lemma {:induction false} AlwaysConserved(x: Exchange, maxAuto: int, found: seq<seq<Job>>, steps: seq<Step>)
    ensures Conserved(found, Run(x, maxAuto, Start(found), steps))
  {
    if steps == [] {
      StartConserved(found);
    } else {
      AlwaysConserved(x, maxAuto, found, steps[..|steps| - 1]);
      NextKeepsConserved(x, maxAuto, found, Run(x, maxAuto, Start(found), steps[..|steps| - 1]), steps[|steps| - 1]);
    }
  }

  // ---------------------------------------------------------------------------
  // Progress
  // ---------------------------------------------------------------------------

  /** No reachable state is stuck before the worker has exited, and no send ever fails. */
  lemma NeverStuck(x: Exchange, maxAuto: int, found: seq<seq<Job>>, steps: seq<Step>)
    ensures var s := Run(x, maxAuto, Start(found), steps);
            && (!s.exited <==> exists step :: Enabled(s, step))
            && (forall p :: !Enabled(s, SendFails(p)))
  {
    AlwaysConserved(x, maxAuto, found, steps);
    var s := Run(x, maxAuto, Start(found), steps);
    if !s.exited {
      var step := SomeStep(s);
    }
  }

  /** Finds an enabled step: finish or run a job, start one, let a scan go on, or exit. */
  lemma SomeStep(s: Pipe) returns (step: Step)
    requires !s.exited
    ensures Enabled(s, step)
  {
    if s.active != [] {
      step := if s.active[0].stage.Finished? then Collect(0) else RunJob(0);
    } else if s.queue != [] {
      step := StartJob;
    } else if p: nat :| p < |s.producers| && !s.producers[p].Ended? {
      step := if s.producers[p].Fetching? then Fetched(p) else if s.producers[p].pending == [] then End(p) else Send(p);
    } else {
      step := Exit;
    }
  }

  function ProducerWeight(p: Producer): int {
    match p
    case Fetching(found) => 2 + 7 * |found|
    case Sending(pending) => 1 + 7 * |pending|
    case Ended => 0
  }

  function StageWeight(a: Active): int {
    match a.stage
    case Started => 5
    case Sold(_) => 4
    case Settled(_) => 3
    case Finished(_) => 2
  }

  /** Steps still to come, bounded from above. */
  function Measure(s: Pipe): int {
    Sum(ProducerWeight, s.producers) + 6 * |s.queue| + Sum(StageWeight, s.active) + if s.exited then 0 else 1
  }

  lemma {:induction false} SumNonNegative<T>(f: T -> int, s: seq<T>)
    requires forall i :: 0 <= i < |s| ==> f(s[i]) >= 0
    ensures Sum(f, s) >= 0
  {
    if s != [] {
      SumNonNegative(f, s[1..]);
    }
  }

  lemma MeasureNonNegative(s: Pipe)
    ensures Measure(s) >= 0
  {
    SumNonNegative(ProducerWeight, s.producers);
    SumNonNegative(StageWeight, s.active);
  }

  lemma SendsDecrease(s: Pipe, p: nat, to: Producer, more: nat)
    requires p < |s.producers| && ProducerWeight(to) + 6 * more < ProducerWeight(s.producers[p])
    ensures Sum(ProducerWeight, s.producers[p := to]) + 6 * more < Sum(ProducerWeight, s.producers)
  {
    SumUpdate(ProducerWeight, s.producers, p, to);
  }

  /** Every step brings the end nearer. */
  lemma StepsDecrease(x: Exchange, maxAuto: int, s: Pipe, step: Step)
    requires Enabled(s, step)
    ensures Measure(Next(x, maxAuto, s, step)) < Measure(s)
  {
    match step {
      case Fetched(p) => SendsDecrease(s, p, Sending(s.producers[p].found), 0);
      case Send(p) => SendsDecrease(s, p, Sending(s.producers[p].pending[1..]), 1);
      case SendFails(p) => SendsDecrease(s, p, Sending(s.producers[p].pending[1..]), 0);
      case End(p) => SendsDecrease(s, p, Ended, 0);
      case StartJob =>
        SumAppend(StageWeight, s.active, [Active(s.queue[0], Started)]);
        assert Sum(StageWeight, [Active(s.queue[0], Started)]) == 5;
      case RunJob(k) => SumUpdate(StageWeight, s.active, k, Advance(x, maxAuto, s.active[k]).active);
      case Collect(k) => SumRemove(StageWeight, s.active, k);
      case Exit =>
    }
  }

  ghost predicate AllEnabled(x: Exchange, maxAuto: int, s: Pipe, steps: seq<Step>) {
    forall i :: 0 <= i < |steps| ==> Enabled(Run(x, maxAuto, s, steps[..i]), steps[i])
  }

  /** Every schedule of real steps is finite: no longer than the measure of its first state. */
  lemma {:induction false} SchedulesEnd(x: Exchange, maxAuto: int, s: Pipe, steps: seq<Step>)
    requires AllEnabled(x, maxAuto, s, steps)
    ensures |steps| + Measure(Run(x, maxAuto, s, steps)) <= Measure(s)
    ensures |steps| <= Measure(s)
  {
    if steps != [] {
      var n := |steps| - 1;
      forall i | 0 <= i < n
        ensures Enabled(Run(x, maxAuto, s, steps[..n][..i]), steps[..n][i])
      {
        assert steps[..n][..i] == steps[..i];
      }
      SchedulesEnd(x, maxAuto, s, steps[..n]);
      StepsDecrease(x, maxAuto, Run(x, maxAuto, s, steps[..n]), steps[n]);
    }
    MeasureNonNegative(Run(x, maxAuto, s, steps));
  }

  /** Every schedule can be continued to one after which the worker has exited. */
  lemma {:induction false} CanComplete(x: Exchange, maxAuto: int, s: Pipe, steps: seq<Step>) returns (all: seq<Step>)
    ensures steps <= all && Run(x, maxAuto, s, all).exited
    decreases Measure(Run(x, maxAuto, s, steps))
  {
    var now := Run(x, maxAuto, s, steps);
    MeasureNonNegative(now);
    if now.exited {
      all := steps;
    } else {
      var step := SomeStep(now);
      StepsDecrease(x, maxAuto, now, step);
      assert (steps + [step])[..|steps|] == steps;
      all := CanComplete(x, maxAuto, s, steps + [step]);
    }
  }

  // ---------------------------------------------------------------------------
  // What the jobs do
  // ---------------------------------------------------------------------------

  /** The calls made for one job, in the order they were made. */
  function CallsOf(calls: seq<Call>, id: JobId): seq<Call> {
    if calls == [] then []
    else CallsOf(calls[..|calls| - 1], id) + if calls[|calls| - 1].id == id then [calls[|calls| - 1]] else []
  }

  lemma {:induction false} CallsOfAppend(a: seq<Call>, b: seq<Call>, id: JobId)
    requires forall c :: c in b ==> c.id == id
    ensures CallsOf(a + b, id) == CallsOf(a, id) + b
  {
    if b == [] {
      assert a + b == a;
    } else {
      var n := |b| - 1;
      assert (a + b)[..|a + b| - 1] == a + b[..n];
      CallsOfAppend(a, b[..n], id);
    }
  }

  lemma {:induction false} CallsOfOther(a: seq<Call>, b: seq<Call>, id: JobId)
    requires forall c :: c in b ==> c.id != id
    ensures CallsOf(a + b, id) == CallsOf(a, id)
  {
    if b == [] {
      assert a + b == a;
    } else {
      assert (a + b)[..|a + b| - 1] == a + b[..|b| - 1];
      CallsOfOther(a, b[..|b| - 1], id);
    }
  }

  function ActiveLogs(x: Exchange, maxAuto: int, active: seq<Active>): seq<seq<Call>> {
    seq(|active|, i requires 0 <= i < |active| => CallsSoFar(x, maxAuto, active[i]))
  }

  function DoneLogs(x: Exchange, maxAuto: int, results: seq<Done>): seq<seq<Call>> {
    seq(|results|, i requires 0 <= i < |results| => LiquidatePipeline(x, maxAuto, results[i].job).calls)
  }

  /** Jobs the worker has not started have made no calls. */
  ghost predicate WaitingSilent(s: Pipe) {
    forall j :: j in Unsent(s) || j in s.queue ==> CallsOf(s.calls, j.id) == []
  }

  /** Jobs in flight and finished are where the sequential pipeline puts them, with the calls it makes. */
  ghost predicate Faithful(x: Exchange, maxAuto: int, s: Pipe) {
    && (forall k :: 0 <= k < |s.active| ==>
          OnTrack(x, maxAuto, s.active[k])
              && CallsOf(s.calls, s.active[k].job.id) == CallsSoFar(x, maxAuto, s.active[k]))
    && (forall k :: 0 <= k < |s.results| ==>
          && s.results[k].result == LiquidateOne(x, maxAuto, s.results[k].job)
          && CallsOf(s.calls, s.results[k].job.id) == LiquidatePipeline(x, maxAuto, s.results[k].job).calls)
    && WaitingSilent(s)
  }

  /** All jobs of a state, place by place. */
  function Everything(s: Pipe): seq<Job> {
    (Unsent(s) + s.queue) + Map(ActiveJob, s.active) + Map(DoneJob, s.results)
  }

  lemma EverythingDistinct(found: seq<seq<Job>>, s: Pipe)
    requires Conserved(found, s) && DistinctBy(IdOf, Concat(found))
    ensures DistinctBy(IdOf, Everything(s))
  {
    assert multiset(Everything(s)) == multiset(Unsent(s)) + InWorker(s);
    DistinctPerm(IdOf, Concat(found), Everything(s));
  }

  /** No two places hold jobs with the same id. */
  lemma OthersDiffer(found: seq<seq<Job>>, s: Pipe, k: nat)
    requires Conserved(found, s) && DistinctBy(IdOf, Concat(found)) && k < |s.active|
    ensures forall i :: 0 <= i < |s.active| && i != k ==> s.active[i].job.id != s.active[k].job.id
    ensures forall i :: 0 <= i < |s.results| ==> s.results[i].job.id != s.active[k].job.id
    ensures forall j :: j in Unsent(s) || j in s.queue ==> j.id != s.active[k].job.id
  {
    EverythingDistinct(found, s);
    SectionsDiffer(Unsent(s) + s.queue, Map(ActiveJob, s.active), Map(DoneJob, s.results), k);
    forall i | 0 <= i < |s.active| && i != k
      ensures s.active[i].job.id != s.active[k].job.id
    {
      assert Map(ActiveJob, s.active)[i] == s.active[i].job;
    }
    forall i | 0 <= i < |s.results|
      ensures s.results[i].job.id != s.active[k].job.id
    {
      assert Map(DoneJob, s.results)[i] == s.results[i].job;
    }
  }

  lemma SectionsDiffer(a: seq<Job>, b: seq<Job>, c: seq<Job>, k: nat)
    requires DistinctBy(IdOf, a + b + c) && k < |b|
    ensures forall i :: 0 <= i < |b| && i != k ==> b[i].id != b[k].id
    ensures forall i :: 0 <= i < |c| ==> c[i].id != b[k].id
    ensures forall j :: j in a ==> j.id != b[k].id
  {
    var all := a + b + c;
    assert all[|a| + k] == b[k];
    assert forall i :: 0 <= i < |b| ==> all[|a| + i] == b[i];
    assert forall i :: 0 <= i < |c| ==> all[|a| + |b| + i] == c[i];
    assert forall i :: 0 <= i < |a| ==> all[i] == a[i];
  }

  lemma RunJobKeepsFaithful(x: Exchange, maxAuto: int, found: seq<seq<Job>>, s: Pipe, k: nat)
    requires Conserved(found, s) && DistinctBy(IdOf, Concat(found)) && Faithful(x, maxAuto, s)
    requires Enabled(s, RunJob(k))
    ensures Faithful(x, maxAuto, Next(x, maxAuto, s, RunJob(k)))
  {
    var a := s.active[k];
    var next := Next(x, maxAuto, s, RunJob(k));
    var made := Advance(x, maxAuto, a).calls;
    AdvanceStaysOnTrack(x, maxAuto, a);
    OthersDiffer(found, s, k);
    CallsOfAppend(s.calls, made, a.job.id);
    forall id | id != a.job.id
      ensures CallsOf(next.calls, id) == CallsOf(s.calls, id)
    {
      CallsOfOther(s.calls, made, id);
    }
    assert Unsent(next) == Unsent(s);
  }

  lemma UnsentShrinks(s: Pipe, p: nat, to: Producer, j: Job)
    requires p < |s.producers| && forall k :: k in LeftIn(to) ==> k in LeftIn(s.producers[p])
    requires j in Concat(Map(LeftIn, s.producers[p := to])) || j in LeftIn(s.producers[p])
    ensures j in Unsent(s)
  {
    var after := Map(LeftIn, s.producers[p := to]);
    ConcatIn(after, j);
    ConcatIn(Map(LeftIn, s.producers), j);
    assert LeftIn(s.producers[p]) == Map(LeftIn, s.producers)[p];
    if q :| 0 <= q < |after| && j in after[q] {
      assert j in Map(LeftIn, s.producers)[q];
    }
  }

  /** Jobs only ever move towards the worker. */
  lemma WaitingShrinks(x: Exchange, maxAuto: int, s: Pipe, step: Step, j: Job)
    requires j in Unsent(Next(x, maxAuto, s, step)) || j in Next(x, maxAuto, s, step).queue
    ensures j in Unsent(s) || j in s.queue
  {
    if Enabled(s, step) && j !in s.queue {
      match step {
        case Fetched(p) => UnsentShrinks(s, p, Sending(s.producers[p].found), j);
        case Send(p) => UnsentShrinks(s, p, Sending(s.producers[p].pending[1..]), j);
        case SendFails(p) => UnsentShrinks(s, p, Sending(s.producers[p].pending[1..]), j);
        case End(p) => UnsentShrinks(s, p, Ended, j);
        case StartJob =>
        case RunJob(k) =>
        case Collect(k) =>
        case Exit =>
      }
    }
  }

  lemma WaitingStaySilent(x: Exchange, maxAuto: int, s: Pipe, step: Step)
    requires WaitingSilent(s) && !step.RunJob?
    ensures WaitingSilent(Next(x, maxAuto, s, step))
  {
    var next := Next(x, maxAuto, s, step);
    assert next.calls == s.calls;
    forall j | j in Unsent(next) || j in next.queue
      ensures CallsOf(next.calls, j.id) == []
    {
      WaitingShrinks(x, maxAuto, s, step, j);
    }
  }

  lemma StartJobKeepsFaithful(x: Exchange, maxAuto: int, s: Pipe)
    requires Faithful(x, maxAuto, s) && Enabled(s, StartJob)
    ensures Faithful(x, maxAuto, Next(x, maxAuto, s, StartJob))
  {
    WaitingStaySilent(x, maxAuto, s, StartJob);
    assert s.queue[0] in s.queue;
  }

  lemma OtherStepsKeepFaithful(x: Exchange, maxAuto: int, s: Pipe, step: Step)
    requires Faithful(x, maxAuto, s) && Enabled(s, step) && !step.RunJob? && !step.StartJob?
    ensures Faithful(x, maxAuto, Next(x, maxAuto, s, step))
  {
    WaitingStaySilent(x, maxAuto, s, step);
    hide WaitingSilent;
  }

  lemma NextKeepsFaithful(x: Exchange, maxAuto: int, found: seq<seq<Job>>, s: Pipe, step: Step)
    requires Conserved(found, s) && DistinctBy(IdOf, Concat(found)) && Faithful(x, maxAuto, s)
    ensures Faithful(x, maxAuto, Next(x, maxAuto, s, step))
  {
    if Enabled(s, step) {
      if step.RunJob? {
        RunJobKeepsFaithful(x, maxAuto, found, s, step.k);
      } else if step.StartJob? {
        StartJobKeepsFaithful(x, maxAuto, s);
      } else {
        OtherStepsKeepFaithful(x, maxAuto, s, step);
      }
    }
  }

  lemma {:induction false} AlwaysFaithful(x: Exchange, maxAuto: int, found: seq<seq<Job>>, steps: seq<Step>)
    requires DistinctBy(IdOf, Concat(found))
    ensures Faithful(x, maxAuto, Run(x, maxAuto, Start(found), steps))
  {
    if steps != [] {
      var n := |steps| - 1;
      AlwaysConserved(x, maxAuto, found, steps[..n]);
      AlwaysFaithful(x, maxAuto, found, steps[..n]);
      NextKeepsFaithful(x, maxAuto, found, Run(x, maxAuto, Start(found), steps[..n]), steps[n]);
    }
  }
}
