/**
 * The budgeted round-robin drain of the five-stage pipeline (apps/web/jobs/drain.ts) over a small
 * store of ready jobs. What a handler does is a parameter, and so is what the clock shows at each reading.
 */
module Drain {
  import opened Base

  /** The registered handlers in pipeline order (apps/web/jobs/handlers/index.ts). */
  const HANDLERS: seq<string> := ["ingest.receive", "ingest.normalise", "map.apply", "validate.run", "corpus.record"]

  const SETTLE_HEADROOM_MS := 1500

  datatype Job = Job(id: nat, data: string)

  datatype Outcome = Completed | Failed | LeaseHeld

  /** What one handler call does: how it ends, and the job it enqueues for the next stage, if any. */
  datatype Work = Work(outcome: Outcome, next: Option<Job>)

  datatype Verb = Complete | Fail

  datatype Settlement = Settlement(queue: string, id: nat, verb: Verb)

  /** One `boss.fetch`: the queue asked, the clock readings made before it, and the job it gave, if any. */
  datatype Attempt = Attempt(stage: nat, readings: nat, job: Option<Job>)

  /** One fetched job: the attempt that gave it, its stage, and what its handler did. */
  datatype Entry = Entry(attempt: nat, stage: nat, job: Job, work: Work)

  datatype DrainResult = DrainResult(
    fetched: nat, completed: nat, failed: nat, leaseHeld: nat, byQueue: map<string, nat>,
    elapsedMs: int, budgetExhausted: bool)

  /** A handler call: the number of jobs run before it, the stage, and the job. */
  type Worker = (nat, nat, Job) -> Work

  /** A handler enqueues only for the next stage, and the last stage enqueues nothing. */
  ghost predicate PipelineShaped(worker: Worker) {
    forall n: nat, stage: nat, job :: worker(n, stage, job).next.Some? ==> stage + 1 < |HANDLERS|
  }

  // ---------- What a log of fetched jobs says ----------

  function CountOutcome(log: seq<Entry>, o: Outcome): (n: nat) {
    if log == [] then 0
    else CountOutcome(log[..|log| - 1], o) + if log[|log| - 1].work.outcome == o then 1 else 0
  }

  function CountStage(log: seq<Entry>, stage: nat): nat {
    if log == [] then 0
    else CountStage(log[..|log| - 1], stage) + if log[|log| - 1].stage == stage then 1 else 0
  }

  function FetchedFrom(log: seq<Entry>, stage: nat): seq<Job> {
    if log == [] then []
    else FetchedFrom(log[..|log| - 1], stage) + if log[|log| - 1].stage == stage then [log[|log| - 1].job] else []
  }

  function EnqueuedTo(log: seq<Entry>, stage: nat): seq<Job> {
    if log == [] then []
    else
      var e := log[|log| - 1];
      EnqueuedTo(log[..|log| - 1], stage) + if e.stage + 1 == stage && e.work.next.Some? then [e.work.next.value] else []
  }

  predicate StagesValid(log: seq<Entry>) {
    forall i :: 0 <= i < |log| ==> log[i].stage < |HANDLERS|
  }

  function Settled(stage: nat, job: Job, work: Work): Settlement
    requires stage < |HANDLERS|
  {
    Settlement(HANDLERS[stage], job.id, if work.outcome == Completed then Complete else Fail)
  }

  /** One settling call per fetched job, in order: `complete` for a normal return, `fail` for a throw. */
  function Settlements(log: seq<Entry>): (s: seq<Settlement>)
    requires StagesValid(log)
    ensures |s| == |log|
  {
    seq(|log|, i requires 0 <= i < |log| => Settled(log[i].stage, log[i].job, log[i].work))
  }

  /** Every stage's jobs are fetched first in, first out, and none appears or disappears. */
  ghost predicate Conserved(before: seq<seq<Job>>, after: seq<seq<Job>>, log: seq<Entry>)
    requires |before| == |after| == |HANDLERS|
  {
    forall stage :: 0 <= stage < |HANDLERS| ==>
      before[stage] + EnqueuedTo(log, stage) == FetchedFrom(log, stage) + after[stage]
  }

  // ---------- The termination measure ----------

  function Total(ready: seq<seq<Job>>): nat {
    if ready == [] then 0 else Total(ready[..|ready| - 1]) + |ready[|ready| - 1]|
  }

  /** Every ready job counts once for each stage it still has before it, its own included. */
  function StagesLeft(ready: seq<seq<Job>>): nat {
    if ready == [] then 0 else StagesLeft(ready[..|ready| - 1]) + Total(ready)
  }

  /** The ready jobs after the first job of `stage` is fetched and its handler may have enqueued one. */
  function Advanced(ready: seq<seq<Job>>, stage: nat, next: Option<Job>): (r: seq<seq<Job>>)
    requires stage < |ready| && ready[stage] != []
    ensures |r| == |ready|
  {
    var taken := ready[stage := ready[stage][1..]];
    if next.Some? && stage + 1 < |ready| then taken[stage + 1 := taken[stage + 1] + [next.value]] else taken
  }

  lemma {:induction false} AdvancedTotal(ready: seq<seq<Job>>, stage: nat, next: Option<Job>)
    requires stage < |ready| && ready[stage] != []
    ensures Total(Advanced(ready, stage, next))
            == Total(ready) - 1 + if next.Some? && stage + 1 < |ready| then 1 else 0
  {
    var n := |ready| - 1;
    var after := Advanced(ready, stage, next);
    if stage < n {
      var front := ready[..n];
      AdvancedTotal(front, stage, next);
      assert after[..n] == Advanced(front, stage, next);
    } else {
      assert after[..n] == ready[..n];
    }
  }

  /** Running a job always uses up one of the stages left, whatever its handler enqueues. */
  lemma {:induction false} AdvancedStagesLeft(ready: seq<seq<Job>>, stage: nat, next: Option<Job>)
    requires stage < |ready| && ready[stage] != []
    ensures StagesLeft(Advanced(ready, stage, next)) < StagesLeft(ready)
  {
    var n := |ready| - 1;
    var after := Advanced(ready, stage, next);
    AdvancedTotal(ready, stage, next);
    if stage < n {
      var front := ready[..n];
      AdvancedStagesLeft(front, stage, next);
      assert after[..n] == Advanced(front, stage, next);
    } else {
      assert after[..n] == ready[..n];
    }
  }

  // ---------- The clock, the store and the loop ----------

  /** `now`: the n-th call ever made shows `times(n)`. */
  class Clock {
    const times: nat -> int
    var readings: nat

    constructor (times: nat -> int)
      ensures this.times == times && readings == 0
    {
      this.times := times;
      readings := 0;
    }

    method Now() returns (t: int)
      modifies this
      ensures t == times(old(readings)) && readings == old(readings) + 1
    {
      t := times(readings);
      readings := readings + 1;
    }
  }

  /** `attempts` only records the calls of `fetch`. */
  class Boss {
    var ready: seq<seq<Job>>
    var settled: seq<Settlement>
    ghost var attempts: seq<Attempt>

    ghost predicate Valid() reads this {
      |ready| == |HANDLERS|
    }

    constructor (ready: seq<seq<Job>>)
      requires |ready| == |HANDLERS|
      ensures Valid() && this.ready == ready && settled == [] && attempts == []
    {
      this.ready := ready;
      settled, attempts := [], [];
    }

    method Fetch(stage: nat, ghost clock: Clock) returns (job: Option<Job>)
      requires Valid() && stage < |HANDLERS|
      modifies this`ready, this`attempts
      ensures Valid() && attempts == old(attempts) + [Attempt(stage, clock.readings, job)]
      ensures old(ready[stage]) == [] ==> job == None && ready == old(ready)
      ensures old(ready[stage]) != [] ==>
                job == Some(old(ready[stage][0])) && ready == old(ready)[stage := old(ready[stage])[1..]]
    {
      if ready[stage] == [] {
        attempts := attempts + [Attempt(stage, clock.readings, None)];
        return None;
      }
      job := Some(ready[stage][0]);
      attempts := attempts + [Attempt(stage, clock.readings, job)];
      ready := ready[stage := ready[stage][1..]];
    }

    /** `runOne`: the handler runs, then the job is settled exactly once. */
    method RunOne(stage: nat, job: Job, work: Work) returns (outcome: Outcome)
      requires Valid() && stage < |HANDLERS| && (work.next.Some? ==> stage + 1 < |HANDLERS|)
      modifies this`ready, this`settled
      ensures Valid() && outcome == work.outcome
      ensures ready == if work.next.Some? then old(ready)[stage + 1 := old(ready)[stage + 1] + [work.next.value]]
                       else old(ready)
      ensures settled == old(settled) + [Settled(stage, job, work)]
    {
      if work.next.Some? {
        ready := ready[stage + 1 := ready[stage + 1] + [work.next.value]];
      }
      match work.outcome {
        case Completed =>
          settled := settled + [Settlement(HANDLERS[stage], job.id, Complete)];
        case _ =>
          settled := settled + [Settlement(HANDLERS[stage], job.id, Fail)];
      }
      return work.outcome;
    }
  }

  /** The local counters of the drain. */
  datatype Tally = Tally(fetched: nat, completed: nat, failed: nat, leaseHeld: nat, byQueue: map<string, nat>)

  function Counted(t: Tally, stage: nat, outcome: Outcome): Tally
    requires stage < |HANDLERS|
  {
    var name := HANDLERS[stage];
    Tally(t.fetched + 1,
          t.completed + if outcome == Completed then 1 else 0,
          t.failed + if outcome == Failed then 1 else 0,
          t.leaseHeld + if outcome == LeaseHeld then 1 else 0,
          t.byQueue[name := (if name in t.byQueue then t.byQueue[name] else 0) + 1])
  }

  /** The counters agree with the log; only queues with a settled job appear. */
  ghost predicate Tallied(t: Tally, log: seq<Entry>) {
    && t.fetched == |log|
    && t.completed == CountOutcome(log, Completed)
    && t.failed == CountOutcome(log, Failed)
    && t.leaseHeld == CountOutcome(log, LeaseHeld)
    && (forall stage :: 0 <= stage < |HANDLERS| ==>
          if CountStage(log, stage) == 0 then HANDLERS[stage] !in t.byQueue
          else HANDLERS[stage] in t.byQueue && t.byQueue[HANDLERS[stage]] == CountStage(log, stage))
    && (forall name :: name in t.byQueue ==> name in HANDLERS)
  }

  /** Every entry ran its own handler. */
  ghost predicate Faithful(log: seq<Entry>, worker: Worker) {
    forall i :: 0 <= i < |log| ==> log[i].stage < |HANDLERS| && log[i].work == worker(i, log[i].stage, log[i].job)
  }

  /**
   * The queues are asked in turn, one reading of the clock right before each, the k-th being reading
   * `first + k`; each of these readings is before the deadline.
   */
  ghost predicate InTurn(attempts: seq<Attempt>, times: nat -> int, first: nat, deadline: int) {
    forall k :: 0 <= k < |attempts| ==>
      attempts[k].stage == k % |HANDLERS| && attempts[k].readings == first + k + 1 && times(first + k) < deadline
  }

  /** The log has exactly the attempts that gave a job, in order. */
  ghost predicate LogOf(log: seq<Entry>, attempts: seq<Attempt>) {
    && (forall i :: 0 <= i < |log| ==>
          && log[i].attempt < |attempts|
          && attempts[log[i].attempt].stage == log[i].stage && attempts[log[i].attempt].job == Some(log[i].job))
    && (forall i, j :: 0 <= i < j < |log| ==> log[i].attempt < log[j].attempt)
    && (forall k :: 0 <= k < |attempts| && attempts[k].job.Some? ==> exists i :: 0 <= i < |log| && log[i].attempt == k)
  }

  lemma InTurnNext(attempts: seq<Attempt>, times: nat -> int, first: nat, deadline: int, a: Attempt)
    requires InTurn(attempts, times, first, deadline)
    requires a.stage == |attempts| % |HANDLERS| && a.readings == first + |attempts| + 1 && times(first + |attempts|) < deadline
    ensures InTurn(attempts + [a], times, first, deadline)
  {
  }

  lemma LogOfMiss(log: seq<Entry>, attempts: seq<Attempt>, a: Attempt)
    requires LogOf(log, attempts) && a.job == None
    ensures LogOf(log, attempts + [a])
  {
  }

  lemma LogOfHit(log: seq<Entry>, attempts: seq<Attempt>, a: Attempt, e: Entry)
    requires LogOf(log, attempts) && a.job == Some(e.job) && e.attempt == |attempts| && e.stage == a.stage
    ensures LogOf(log + [e], attempts + [a])
  {
    forall k | 0 <= k < |attempts + [a]| && (attempts + [a])[k].job.Some?
      ensures exists i :: 0 <= i < |log + [e]| && (log + [e])[i].attempt == k
    {
      var i := |log|;
      if k < |attempts| {
        i := LogIndex(log, attempts, k);
      }
      assert (log + [e])[i].attempt == k;
    }
  }

  lemma LogIndex(log: seq<Entry>, attempts: seq<Attempt>, k: nat) returns (i: nat)
    requires LogOf(log, attempts) && k < |attempts| && attempts[k].job.Some?
    ensures i < |log| && log[i].attempt == k
  {
    i :| 0 <= i < |log| && log[i].attempt == k;
  }

  /** Everything a drain has to account for, `before` and `settled0` being the store it started from. */
  ghost predicate Books(before: seq<seq<Job>>, settled0: seq<Settlement>, ready: seq<seq<Job>>,
                        settled: seq<Settlement>, t: Tally, log: seq<Entry>, worker: Worker)
  {
    && |before| == |ready| == |HANDLERS|
    && Conserved(before, ready, log)
    && Faithful(log, worker)
    && StagesValid(log)
    && settled == settled0 + Settlements(log)
    && Tallied(t, log)
    && |log| + StagesLeft(ready) <= StagesLeft(before)
  }

  /** Running one more job keeps the stages' queues in balance. */
  lemma ConservedStep(before: seq<seq<Job>>, ready: seq<seq<Job>>, log: seq<Entry>, e: Entry)
    requires |before| == |ready| == |HANDLERS| && Conserved(before, ready, log)
    requires e.stage < |HANDLERS| && ready[e.stage] != [] && e.job == ready[e.stage][0]
    requires e.work.next.Some? ==> e.stage + 1 < |HANDLERS|
    ensures Conserved(before, Advanced(ready, e.stage, e.work.next), log + [e])
  {
    var after := Advanced(ready, e.stage, e.work.next);
    forall stage | 0 <= stage < |HANDLERS|
      ensures before[stage] + EnqueuedTo(log + [e], stage) == FetchedFrom(log + [e], stage) + after[stage]
    {
      assert (log + [e])[..|log|] == log;
      var out := if e.stage == stage then [e.job] else [];
      var into := if e.stage + 1 == stage && e.work.next.Some? then [e.work.next.value] else [];
      Rebalance(before[stage], EnqueuedTo(log, stage), FetchedFrom(log, stage), ready[stage], out, into, after[stage]);
    }
  }

  lemma Rebalance(before: seq<Job>, enqueued: seq<Job>, fetched: seq<Job>, ready: seq<Job>,
                  out: seq<Job>, into: seq<Job>, after: seq<Job>)
    requires before + enqueued == fetched + ready && out + after == ready + into
    ensures before + (enqueued + into) == (fetched + out) + after
  {
    assert before + (enqueued + into) == (before + enqueued) + into;
    assert (fetched + ready) + into == fetched + (ready + into);
    assert fetched + (out + after) == (fetched + out) + after;
  }

  lemma TalliedStep(t: Tally, log: seq<Entry>, e: Entry)
    requires Tallied(t, log) && e.stage < |HANDLERS|
    ensures Tallied(Counted(t, e.stage, e.work.outcome), log + [e])
  {
    assert (log + [e])[..|log|] == log;
    assert forall i, j :: 0 <= i < j < |HANDLERS| ==> HANDLERS[i] != HANDLERS[j];
  }

  lemma SettlementsStep(log: seq<Entry>, e: Entry)
    requires StagesValid(log) && e.stage < |HANDLERS|
    ensures StagesValid(log + [e]) && Settlements(log + [e]) == Settlements(log) + [Settled(e.stage, e.job, e.work)]
  {
  }

  lemma BooksStep(before: seq<seq<Job>>, settled0: seq<Settlement>, ready: seq<seq<Job>>,
                  settled: seq<Settlement>, t: Tally, log: seq<Entry>, worker: Worker, e: Entry)
    requires Books(before, settled0, ready, settled, t, log, worker) && PipelineShaped(worker)
    requires e.stage < |HANDLERS| && ready[e.stage] != [] && e.job == ready[e.stage][0]
    requires e.work == worker(t.fetched, e.stage, e.job)
    ensures Books(before, settled0, Advanced(ready, e.stage, e.work.next),
                  settled + [Settled(e.stage, e.job, e.work)],
                  Counted(t, e.stage, e.work.outcome), log + [e], worker)
    ensures StagesLeft(Advanced(ready, e.stage, e.work.next)) < StagesLeft(ready)
  {
    hide Settlements, Counted, Settled, StagesLeft;
    ConservedStep(before, ready, log, e);
    TalliedStep(t, log, e);
    SettlementsStep(log, e);
    AdvancedStagesLeft(ready, e.stage, e.work.next);
    hide Conserved, Advanced;
  }

  /**
   * `drainQueues`. Jobs: every job of every stage is accounted for, in order, and settled once, the right way;
   * the counters agree; at most StagesLeft jobs run. Time: each fetch is preceded by its own reading of the
   * clock, before the deadline; nothing is fetched after the first reading that is not.
   */
  method DrainQueues(boss: Boss, worker: Worker, clock: Clock, budgetMs: int)
    returns (r: DrainResult, ghost log: seq<Entry>, ghost attempts: seq<Attempt>)
    requires boss.Valid() && PipelineShaped(worker)
    modifies boss, clock
    ensures boss.Valid() && boss.attempts == old(boss.attempts) + attempts && LogOf(log, attempts)
    ensures Books(old(boss.ready), old(boss.settled), boss.ready, boss.settled,
                  Tally(r.fetched, r.completed, r.failed, r.leaseHeld, r.byQueue), log, worker)
    ensures var start := old(clock.readings); var deadline := clock.times(start) + budgetMs - SETTLE_HEADROOM_MS;
            && InTurn(attempts, clock.times, start + 1, deadline)
            && clock.readings == start + 2 + |attempts| + (if r.budgetExhausted then 1 else 0)
            && (r.budgetExhausted <==> clock.times(clock.readings - 2) >= deadline)
            && r.elapsedMs == clock.times(clock.readings - 1) - clock.times(start)
    ensures !r.budgetExhausted ==> forall stage :: 0 <= stage < |HANDLERS| ==> boss.ready[stage] == []
  {
    hide Conserved, Faithful, StagesValid, Tallied, Settlements, StagesLeft, Counted, Settled, InTurn, LogOf;
    ghost var first := clock.readings + 1;
    var startedAt := clock.Now();
    var deadline := startedAt + budgetMs - SETTLE_HEADROOM_MS;
    var tally := Tally(0, 0, 0, 0, map[]);
    var budgetExhausted := false;
    log, attempts := [], [];
    BooksOpen(boss.ready, boss.settled, worker);
    NoAttempts(clock.times, first, deadline);
    hide Books;
    assert old(boss.attempts) + [] == old(boss.attempts);
    var progressed := true;
    while progressed && !budgetExhausted
      invariant boss.Valid() && boss.attempts == old(boss.attempts) + attempts && LogOf(log, attempts)
      invariant Books(old(boss.ready), old(boss.settled), boss.ready, boss.settled, tally, log, worker)
      invariant InTurn(attempts, clock.times, first, deadline)
      invariant clock.readings == first + |attempts| + (if budgetExhausted then 1 else 0)
      invariant budgetExhausted ==> clock.times(first + |attempts|) >= deadline
      invariant !budgetExhausted ==> |attempts| % |HANDLERS| == 0 && (!progressed ==> attempts != [])
      invariant !progressed && !budgetExhausted ==>
                  forall stage :: 0 <= stage < |HANDLERS| ==> boss.ready[stage] == []
      decreases StagesLeft(boss.ready), progressed
    {
      progressed := false;
      ghost var left := StagesLeft(boss.ready);
      ghost var round := |attempts|;
      var stage := 0;
      while stage < |HANDLERS|
        invariant 0 <= stage <= |HANDLERS| && !budgetExhausted && boss.Valid()
        invariant boss.attempts == old(boss.attempts) + attempts && LogOf(log, attempts)
        invariant Books(old(boss.ready), old(boss.settled), boss.ready, boss.settled, tally, log, worker)
        invariant InTurn(attempts, clock.times, first, deadline)
        invariant |attempts| == round + stage && clock.readings == first + |attempts|
        invariant StagesLeft(boss.ready) <= left && (progressed ==> StagesLeft(boss.ready) < left)
        invariant !progressed ==> forall q :: 0 <= q < stage ==> boss.ready[q] == []
      {
        var reading := clock.Now();
        if reading >= deadline {
          budgetExhausted := true;
          break;
        }
        ghost var ready, settled := boss.ready, boss.settled;
        var job := boss.Fetch(stage, clock);
        ghost var a := Attempt(stage, clock.readings, job);
        TurnOf(round, stage);
        InTurnNext(attempts, clock.times, first, deadline, a);
        assert (old(boss.attempts) + attempts) + [a] == old(boss.attempts) + (attempts + [a]);
        if job.Some? {
          var work := worker(tally.fetched, stage, job.value);
          var outcome := boss.RunOne(stage, job.value, work);
          assert boss.ready == Advanced(ready, stage, work.next);
          ghost var e := Entry(|attempts|, stage, job.value, work);
          BooksStep(old(boss.ready), old(boss.settled), ready, settled, tally, log, worker, e);
          LogOfHit(log, attempts, a, e);
          tally, log, progressed := Counted(tally, stage, outcome), log + [e], true;
        } else {
          LogOfMiss(log, attempts, a);
        }
        attempts := attempts + [a];
        stage := stage + 1;
      }
    }
    LastReading(attempts, clock.times, first, deadline);
    var now := clock.Now();
    r := DrainResult(tally.fetched, tally.completed, tally.failed, tally.leaseHeld, tally.byQueue, now - startedAt, budgetExhausted);
  }

  lemma NoAttempts(times: nat -> int, first: nat, deadline: int)
    ensures InTurn([], times, first, deadline) && LogOf([], [])
  {
  }

  lemma LastReading(attempts: seq<Attempt>, times: nat -> int, first: nat, deadline: int)
    requires InTurn(attempts, times, first, deadline)
    ensures attempts != [] ==> times(first + |attempts| - 1) < deadline
  {
    if attempts != [] {
      assert attempts[|attempts| - 1].readings == first + |attempts|;
    }
  }

  lemma TurnOf(round: nat, stage: nat)
    requires round % |HANDLERS| == 0 && stage < |HANDLERS|
    ensures (round + stage) % |HANDLERS| == stage && (stage + 1 == |HANDLERS| ==> (round + stage + 1) % |HANDLERS| == 0)
  {
  }

  lemma BooksOpen(ready: seq<seq<Job>>, settled: seq<Settlement>, worker: Worker)
    requires |ready| == |HANDLERS|
    ensures Books(ready, settled, ready, settled, Tally(0, 0, 0, 0, map[]), [], worker)
  {
  }

  // ---------- Consequences ----------

  function SumStages(log: seq<Entry>, n: nat): nat {
    if n == 0 then 0 else SumStages(log, n - 1) + CountStage(log, n - 1)
  }

  lemma {:induction false} SumStagesStep(log: seq<Entry>, e: Entry, n: nat)
    ensures SumStages(log + [e], n) == SumStages(log, n) + if e.stage < n then 1 else 0
  {
    assert (log + [e])[..|log|] == log;
    if n > 0 {
      SumStagesStep(log, e, n - 1);
    }
  }

  /** fetched = completed + failed + leaseHeld = the sum over the queues. */
  lemma {:induction false} CountersAgree(log: seq<Entry>)
    requires StagesValid(log)
    ensures CountOutcome(log, Completed) + CountOutcome(log, Failed) + CountOutcome(log, LeaseHeld) == |log|
    ensures SumStages(log, |HANDLERS|) == |log|
  {
    if log == [] {
      SumStagesEmpty(|HANDLERS|);
    } else {
      var front, e := log[..|log| - 1], log[|log| - 1];
      assert log == front + [e];
      CountersAgree(front);
      SumStagesStep(front, e, |HANDLERS|);
    }
  }

  lemma {:induction false} SumStagesEmpty(n: nat)
    ensures SumStages([], n) == 0
  {
    if n > 0 {
      SumStagesEmpty(n - 1);
    }
  }

  // ---------- What a settlement says ----------

  /** The i-th job fetched is settled on its own queue, by `complete` exactly when its handler returned. */
  lemma SettlementsSay(log: seq<Entry>, i: nat)
    requires StagesValid(log) && i < |log|
    ensures var s := Settlements(log)[i];
            s.queue == HANDLERS[log[i].stage] && s.id == log[i].job.id && (s.verb == Complete <==> log[i].work.outcome == Completed)
  {
  }

  function CountVerb(settlements: seq<Settlement>, v: Verb): nat {
    if settlements == [] then 0
    else CountVerb(settlements[..|settlements| - 1], v) + if settlements[|settlements| - 1].verb == v then 1 else 0
  }

  lemma {:induction false} VerbsAreOutcomes(log: seq<Entry>)
    requires StagesValid(log)
    ensures CountVerb(Settlements(log), Complete) == CountOutcome(log, Completed)
    ensures CountVerb(Settlements(log), Fail) == CountOutcome(log, Failed) + CountOutcome(log, LeaseHeld)
    decreases |log|
  {
    if log != [] {
      var front := log[..|log| - 1];
      VerbsAreOutcomes(front);
      assert Settlements(log)[..|log| - 1] == Settlements(front);
      SettlementsSay(log, |log| - 1);
    }
  }

  /** The counters are those of the store: jobs completed there, and jobs failed there, a held lease included. */
  lemma CountersAreSettlements(t: Tally, log: seq<Entry>)
    requires StagesValid(log) && Tallied(t, log)
    ensures t.completed == CountVerb(Settlements(log), Complete)
    ensures t.failed + t.leaseHeld == CountVerb(Settlements(log), Fail)
  {
    VerbsAreOutcomes(log);
  }
}
