/** How concurrent the pipeline is: what can happen next, how full it gets, and the order it keeps. */
module Concurrency {
  import opened Types
  import opened Seqs
  import opened Worker
  import opened Pipeline

  // ---------------------------------------------------------------------------
  // Nothing waits but for room
  // ---------------------------------------------------------------------------

  /** A scan that has something to send gets it into the channel exactly when fewer than 32 are queued. */
  lemma SendNeedsRoom(x: Exchange, maxAuto: int, s: Pipe, p: nat)
    requires p < |s.producers| && s.producers[p].Sending? && s.producers[p].pending != [] && !s.exited
    ensures var next, job := Next(x, maxAuto, s, Send(p)), s.producers[p].pending[0];
            if |s.queue| < 32
            then next.queue == s.queue + [job] && next.sent == s.sent + [job]
                && next.producers == s.producers[p := Sending(s.producers[p].pending[1..])]
            else next == s
  {
  }

  /** The job at the head of the channel enters flight exactly when fewer than 5 are in flight. */
  lemma StartNeedsRoom(x: Exchange, maxAuto: int, s: Pipe)
    requires s.queue != [] && !s.exited
    ensures var next := Next(x, maxAuto, s, StartJob);
            if |s.active| < 5
            then next.active == s.active + [Active(s.queue[0], Started)] && next.queue == s.queue[1..]
            else next == s
  {
  }

  /** Any job in flight can go on next, whatever the others do, or be collected if it is finished. */
  lemma JobsNeverWait(x: Exchange, maxAuto: int, s: Pipe, k: nat)
    requires k < |s.active|
    ensures s.active[k].stage.Finished? ==>
              var next := Next(x, maxAuto, s, Collect(k));
              && next.active == Remove(s.active, k)
              && Map(DoneJob, next.results) == Map(DoneJob, s.results) + [s.active[k].job]
    ensures !s.active[k].stage.Finished? ==>
              var next := Next(x, maxAuto, s, RunJob(k));
              && next.active == s.active[k := next.active[k]] && next.active[k].stage != s.active[k].stage
              && next.active[k].job == s.active[k].job
  {
    if s.active[k].stage.Finished? {
      MapAppend(DoneJob, s.results, Next(x, maxAuto, s, Collect(k)).results[|s.results|]);
    }
  }

  /** Any scan can come back with what it found, whatever the others do, and end when it has sent that. */
  lemma ScansNeverWait(x: Exchange, maxAuto: int, s: Pipe, p: nat)
    requires p < |s.producers|
    ensures s.producers[p].Fetching? ==>
              Next(x, maxAuto, s, Fetched(p)).producers == s.producers[p := Sending(s.producers[p].found)]
    ensures s.producers[p] == Sending([]) ==> Next(x, maxAuto, s, End(p)).producers == s.producers[p := Ended]
  {
  }

  /** Between an accepted sell and its withdrawal a job waits for the sale to settle, for at least one step. */
  lemma WithdrawalWaits(x: Exchange, maxAuto: int, s: Pipe, k: nat)
    requires k < |s.active| && s.active[k].stage.Started?
    ensures var once := Next(x, maxAuto, s, RunJob(k));
            var twice := Next(x, maxAuto, once, RunJob(k));
            && (forall i :: |s.calls| <= i < |twice.calls| ==> twice.calls[i].Sell?)
            && (|once.calls| > |s.calls| && x.sell(s.active[k].job.id).Ok? ==> !twice.active[k].stage.Finished?)
  {
  }

  // ---------------------------------------------------------------------------
  // How full the pipeline gets
  // ---------------------------------------------------------------------------

  /** No job has got beyond its start yet. */
  predicate Filling(s: Pipe) {
    !s.exited && s.results == [] && |s.queue| <= 32 && |s.active| <= 5
  }

  /** No more can be started, or nothing is queued; and no more can be sent, or nothing is left to send. */
  ghost predicate Full(s: Pipe) {
    && (|s.active| == 5 || s.queue == [])
    && (|s.queue| == 32 || Unsent(s) == [])
  }

  lemma UnsentSomewhere(s: Pipe) returns (p: nat)
    requires Unsent(s) != []
    ensures p < |s.producers| && LeftIn(s.producers[p]) != []
  {
    var job := Unsent(s)[0];
    ConcatIn(Map(LeftIn, s.producers), job);
    p :| 0 <= p < |s.producers| && job in Map(LeftIn, s.producers)[p];
    assert Map(LeftIn, s.producers)[p] == LeftIn(s.producers[p]);
  }

  /** A step that brings the pipeline nearer to being full. */
  lemma FillStep(x: Exchange, maxAuto: int, s: Pipe) returns (step: Step)
    requires Filling(s) && !Full(s)
    ensures Enabled(s, step) && Filling(Next(x, maxAuto, s, step))
  {
    if s.queue != [] && |s.active| < 5 {
      step := StartJob;
    } else {
      var p := UnsentSomewhere(s);
      step := if s.producers[p].Fetching? then Fetched(p) else Send(p);
    }
  }

  lemma {:induction false} FillUp(x: Exchange, maxAuto: int, s: Pipe, steps: seq<Step>) returns (all: seq<Step>)
    requires Filling(Run(x, maxAuto, s, steps))
    ensures Filling(Run(x, maxAuto, s, all)) && Full(Run(x, maxAuto, s, all))
    decreases Measure(Run(x, maxAuto, s, steps))
  {
    var now := Run(x, maxAuto, s, steps);
    MeasureNonNegative(now);
    if Full(now) {
      all := steps;
    } else {
      var step := FillStep(x, maxAuto, now);
      StepsDecrease(x, maxAuto, now, step);
      assert (steps + [step])[..|steps|] == steps;
      all := FillUp(x, maxAuto, s, steps + [step]);
    }
  }

  lemma JobsCounted(found: seq<seq<Job>>, s: Pipe)
    requires Conserved(found, s)
    ensures |Unsent(s)| + |s.queue| + |s.active| + |s.results| == |Concat(found)|
  {
    assert |multiset(Unsent(s))| + |multiset(s.sent)| == |multiset(Concat(found))|;
    assert |multiset(s.sent)| == |InWorker(s)|;
    assert |InWorker(s)| == |s.queue| + |Map(ActiveJob, s.active)| + |Map(DoneJob, s.results)|;
  }

  /** Whatever is found, some schedule has five jobs in flight at once and 32 queued, or as many as there are. */
  lemma CanBeFull(x: Exchange, maxAuto: int, found: seq<seq<Job>>) returns (steps: seq<Step>)
    ensures var s, n := Run(x, maxAuto, Start(found), steps), |Concat(found)|;
            && |s.active| == Min(5, n)
            && |s.queue| == Min(32, n - |s.active|)
            && s.results == []
  {
    assert Run(x, maxAuto, Start(found), []) == Start(found);
    steps := FillUp(x, maxAuto, Start(found), []);
    AlwaysConserved(x, maxAuto, found, steps);
    JobsCounted(found, Run(x, maxAuto, Start(found), steps));
  }

  // ---------------------------------------------------------------------------
  // The order that is kept
  // ---------------------------------------------------------------------------

  /** The channel is first in, first out: what is queued is what was sent last, in the order sent. */
  ghost predicate InOrder(s: Pipe) {
    |s.queue| <= |s.sent| && s.queue == s.sent[|s.sent| - |s.queue|..]
  }

  lemma NextInOrder(x: Exchange, maxAuto: int, s: Pipe, step: Step)
    requires InOrder(s)
    ensures InOrder(Next(x, maxAuto, s, step))
  {
    if Enabled(s, step) {
      var next := Next(x, maxAuto, s, step);
      if step.Send? {
        var job := s.producers[step.p].pending[0];
        assert next.sent[|next.sent| - |next.queue|..] == s.sent[|s.sent| - |s.queue|..] + [job];
      } else if step.StartJob? {
        assert next.sent[|next.sent| - |next.queue|..] == s.sent[|s.sent| - |s.queue|..][1..];
      } else {
        assert next.sent == s.sent && next.queue == s.queue;
      }
    }
  }

  lemma {:induction false} AlwaysInOrder(x: Exchange, maxAuto: int, found: seq<seq<Job>>, steps: seq<Step>)
    ensures InOrder(Run(x, maxAuto, Start(found), steps))
  {
    if steps != [] {
      hide Next;
      AlwaysInOrder(x, maxAuto, found, steps[..|steps| - 1]);
      NextInOrder(x, maxAuto, Run(x, maxAuto, Start(found), steps[..|steps| - 1]), steps[|steps| - 1]);
    }
  }

  /** The jobs of one producer among those sent, in the order sent. */
  function SentFrom(sent: seq<Job>, p: nat): seq<Job> {
    if sent == [] then []
    else
      SentFrom(sent[..|sent| - 1], p) + if sent[|sent| - 1].id.producer == p then [sent[|sent| - 1]] else []
  }

  lemma SentFromAppend(sent: seq<Job>, job: Job, p: nat)
    ensures SentFrom(sent + [job], p) == if job.id.producer == p then SentFrom(sent, p) + [job] else SentFrom(sent, p)
  {
    assert (sent + [job])[..|sent|] == sent;
  }

  /** Jobs carry the number of the scan that found them. */
  ghost predicate Numbered(found: seq<seq<Job>>) {
    forall p, j :: 0 <= p < |found| && j in found[p] ==> j.id.producer == p
  }

  /** Every scan has sent the first part of what it found, in order, and has the rest left. */
  ghost predicate SentInOrder(found: seq<seq<Job>>, s: Pipe) {
    && |s.producers| == |found|
    && forall p :: 0 <= p < |found| ==> found[p] == SentFrom(s.sent, p) + LeftIn(s.producers[p])
  }

  lemma SplitHead<T>(whole: seq<T>, a: seq<T>, b: seq<T>)
    requires whole == a + b && b != []
    ensures whole == (a + [b[0]]) + b[1..] && b[0] in whole
  {
    assert whole[|a|] == b[0];
  }

  lemma SendKeepsOrder(x: Exchange, maxAuto: int, found: seq<seq<Job>>, s: Pipe, q: nat)
    requires Numbered(found) && SentInOrder(found, s) && Enabled(s, Send(q))
    ensures SentInOrder(found, Next(x, maxAuto, s, Send(q)))
  {
    var jobs, next := s.producers[q].pending, Next(x, maxAuto, s, Send(q));
    SplitHead(found[q], SentFrom(s.sent, q), jobs);
    assert next.sent == s.sent + [jobs[0]] && next.producers == s.producers[q := Sending(jobs[1..])];
    hide Next, SentFrom, Enabled;
    forall p | 0 <= p < |found|
      ensures found[p] == SentFrom(next.sent, p) + LeftIn(next.producers[p])
    {
      SentFromAppend(s.sent, jobs[0], p);
    }
  }

  lemma NextKeepsOrder(x: Exchange, maxAuto: int, found: seq<seq<Job>>, s: Pipe, step: Step)
    requires Numbered(found) && Conserved(found, s) && SentInOrder(found, s)
    ensures SentInOrder(found, Next(x, maxAuto, s, step))
  {
    hide SentFrom, Conserved;
    if step.Send? && Enabled(s, step) {
      SendKeepsOrder(x, maxAuto, found, s, step.p);
    } else {
      if step.SendFails? {
        NoSendFails(found, s, step.p);
      }
      var next := Next(x, maxAuto, s, step);
      assert next.sent == s.sent && Map(LeftIn, next.producers) == Map(LeftIn, s.producers);
      forall p | 0 <= p < |found|
        ensures LeftIn(next.producers[p]) == LeftIn(s.producers[p])
      {
        assert Map(LeftIn, next.producers)[p] == Map(LeftIn, s.producers)[p];
      }
    }
  }

  /** No scan's finds are sent out of order. */
  lemma {:induction false} AlwaysSentInOrder(x: Exchange, maxAuto: int, found: seq<seq<Job>>, steps: seq<Step>)
    requires Numbered(found)
    ensures SentInOrder(found, Run(x, maxAuto, Start(found), steps))
  {
    if steps != [] {
      hide Next, SentInOrder;
      var n := |steps| - 1;
      AlwaysSentInOrder(x, maxAuto, found, steps[..n]);
      AlwaysConserved(x, maxAuto, found, steps[..n]);
      NextKeepsOrder(x, maxAuto, found, Run(x, maxAuto, Start(found), steps[..n]), steps[n]);
    }
  }
}
