/**
 * The execution ledger `app.job_execution` and the lease protocol of `idempotent`
 * (apps/web/jobs/idempotent.ts). One row per (job name, run id) is claimed, stolen after its lease
 * expires, and settled by updates that carry no ownership guard.
 */
module LeaseLedger {
  import opened Base

  datatype Key = Key(jobName: string, runId: string)

  datatype Status = Running | Completed | Failed

  datatype Row = Row(
    tenantId: Option<string>, status: Status, attempt: nat, leaseUntil: int, startedAt: int,
    finishedAt: Option<int>, outputHash: Option<string>, error: Option<string>)

  type Table = map<Key, Row>

  // ---------- The three statements `idempotent` sends to the database ----------

  predicate Reclaimable(row: Row, now: int) {
    row.status.Failed? || (row.status.Running? && row.leaseUntil < now)
  }

  predicate Claimable(rows: Table, key: Key, now: int) {
    key !in rows || Reclaimable(rows[key], now)
  }

  /** INSERT ... ON CONFLICT DO UPDATE ... WHERE: one atomic statement. */
  function AfterClaim(rows: Table, key: Key, tenantId: Option<string>, leaseUntil: int, now: int): Table {
    if key !in rows then rows[key := Row(tenantId, Running, 1, leaseUntil, now, None, None, None)]
    else if Reclaimable(rows[key], now) then
      rows[key := rows[key].(status := Running, attempt := rows[key].attempt + 1,
                             leaseUntil := leaseUntil, startedAt := now)]
    else rows
  }

  function AfterCompleted(rows: Table, key: Key, at: int, hash: Option<string>): Table {
    if key in rows then rows[key := rows[key].(status := Completed, finishedAt := Some(at), outputHash := hash)]
    else rows
  }

  function AfterFailed(rows: Table, key: Key, at: int, error: string): Table {
    if key in rows then rows[key := rows[key].(status := Failed, finishedAt := Some(at), error := Some(error))]
    else rows
  }

  // ---------- `idempotent` run from start to end with nothing in between ----------

  datatype Body<+T> = Returns(value: T) | Throws(error: string)

  datatype Answer<+T> = Value(value: T) | Skipped | LeaseHeld(until: Option<int>) | Threw(error: string)

  datatype Run<+T> = Run(rows: Table, answer: Answer<T>, bodyRan: bool)

  /** Clock readings in milliseconds: at entry, at the claim and at the updates to 'completed' and 'failed'. */
  datatype Times = Times(entered: int, claimed: int, completed: int, failed: int)

  /** What becomes of a statement: it is answered, it fails, or it takes effect and its answer is lost. */
  datatype Delivery = Answered | Refused(error: string) | Unanswered(error: string)

  datatype Deliveries = Deliveries(claim: Delivery, look: Delivery, completed: Delivery, failed: Delivery)

  /** The catch block. Its own update, when it fails, replaces the error that is thrown. */
  function Fail<T>(rows: Table, key: Key, at: int, error: string, failed: Delivery): Run<T> {
    match failed
    case Answered => Run(AfterFailed(rows, key, at, error), Threw(error), true)
    case Refused(e) => Run(rows, Threw(e), true)
    case Unanswered(e) => Run(AfterFailed(rows, key, at, error), Threw(e), true)
  }

  function Settle<T>(rows: Table, key: Key, t: Times, d: Deliveries, body: Body<T>, hashOf: T -> Option<string>): Run<T> {
    match body
    case Throws(e) => Fail(rows, key, t.failed, e, d.failed)
    case Returns(v) =>
      match d.completed
      case Answered => Run(AfterCompleted(rows, key, t.completed, hashOf(v)), Value(v), true)
      case Refused(e) => Fail(rows, key, t.failed, e, d.failed)
      case Unanswered(e) => Fail(AfterCompleted(rows, key, t.completed, hashOf(v)), key, t.failed, e, d.failed)
  }

  function Invoke<T>(rows: Table, key: Key, tenantId: Option<string>, leaseSeconds: int, t: Times, d: Deliveries,
                     body: Body<T>, hashOf: T -> Option<string>): Run<T> {
    var after := AfterClaim(rows, key, tenantId, t.entered + leaseSeconds * 1000, t.claimed);
    if d.claim.Refused? then Run(rows, Threw(d.claim.error), false)
    else if d.claim.Unanswered? then Run(after, Threw(d.claim.error), false)
    else if !Claimable(rows, key, t.claimed) then
      if !d.look.Answered? then Run(after, Threw(d.look.error), false)
      else if rows[key].status.Completed? then Run(after, Skipped, false)
      else Run(after, LeaseHeld(Some(rows[key].leaseUntil)), false)
    else Settle(after, key, t, d, body, hashOf)
  }

  /** The table `app.job_execution`, updated in place. */
  class JobExecution {
    var rows: Table

    constructor ()
      ensures rows == map[]
    {
      rows := map[];
    }

    method Claim(key: Key, tenantId: Option<string>, leaseUntil: int, now: int) returns (rowCount: nat)
      modifies this
      ensures rows == AfterClaim(old(rows), key, tenantId, leaseUntil, now)
      ensures rowCount == if Claimable(old(rows), key, now) then 1 else 0
    {
      if key !in rows {
        rows := rows[key := Row(tenantId, Running, 1, leaseUntil, now, None, None, None)];
        return 1;
      }
      var row := rows[key];
      if !(row.status.Failed? || (row.status.Running? && row.leaseUntil < now)) {
        return 0;
      }
      rows := rows[key := row.(status := Running, attempt := row.attempt + 1,
                               leaseUntil := leaseUntil, startedAt := now)];
      return 1;
    }

    /** An UPDATE of the key's row. */
    method Update(key: Key, row: Row, d: Delivery) returns (failure: Option<string>)
      requires key in rows
      modifies this
      ensures rows == if d.Refused? then old(rows) else old(rows)[key := row]
      ensures failure == if d.Answered? then None else Some(d.error)
    {
      if !d.Refused? {
        rows := rows[key := row];
      }
      failure := if d.Answered? then None else Some(d.error);
    }

    method Idempotent<T>(key: Key, tenantId: Option<string>, leaseSeconds: int, t: Times, d: Deliveries,
                         body: Body<T>, hashOf: T -> Option<string>)
      returns (answer: Answer<T>, ghost bodyRan: bool)
      modifies this
      ensures Run(rows, answer, bodyRan) == Invoke(old(rows), key, tenantId, leaseSeconds, t, d, body, hashOf)
    {
      var leaseUntil := t.entered + leaseSeconds * 1000;
      bodyRan := false;
      if d.claim.Refused? {
        return Threw(d.claim.error), bodyRan;
      }
      var rowCount := Claim(key, tenantId, leaseUntil, t.claimed);
      if d.claim.Unanswered? {
        return Threw(d.claim.error), bodyRan;
      }
      if rowCount == 0 {
        if !d.look.Answered? {
          return Threw(d.look.error), bodyRan;
        }
        if key in rows && rows[key].status.Completed? {
          return Skipped, bodyRan;
        }
        return LeaseHeld(if key in rows then Some(rows[key].leaseUntil) else None), bodyRan;
      }
      bodyRan := true;
      var failure: Option<string>;
      match body {
        case Returns(v) =>
          failure := Update(key, rows[key].(status := Completed, finishedAt := Some(t.completed), outputHash := hashOf(v)), d.completed);
          if failure.None? {
            return Value(v), bodyRan;
          }
        case Throws(e) =>
          failure := Some(e);
      }
      var error := failure.value;
      failure := Update(key, rows[key].(status := Failed, finishedAt := Some(t.failed), error := Some(error)), d.failed);
      answer := Threw(if failure.Some? then failure.value else error);
    }
  }

  /**
   * The answer of a call: the body's own value exactly when it was run and its success recorded; 'skipped' exactly
   * for a completed row; and an error that is the body's, or the lost completion's, unless the update to 'failed'
   * failed itself.
   */
  lemma AnswerIs<T>(rows: Table, key: Key, tenant: Option<string>, lease: int, t: Times, d: Deliveries, body: Body<T>,
                    hashOf: T -> Option<string>, v: T, e: string)
    ensures var run := Invoke(rows, key, tenant, lease, t, d, body, hashOf);
            var met := d.claim.Answered? && !Claimable(rows, key, t.claimed) && d.look.Answered?;
            && (run.bodyRan <==> d.claim.Answered? && Claimable(rows, key, t.claimed))
            && (run.answer == Value(v) <==> run.bodyRan && body == Returns(v) && d.completed.Answered?)
            && (run.answer == Skipped <==> met && rows[key].status.Completed?)
            && (run.answer.LeaseHeld? <==> met && rows[key].status.Running?)
            && (run.answer.LeaseHeld? ==> run.answer.until == Some(rows[key].leaseUntil) && t.claimed <= rows[key].leaseUntil)
            && (run.answer == Threw(e) <==>
                  if run.bodyRan then
                    && (body.Throws? || !d.completed.Answered?)
                    && e == if !d.failed.Answered? then d.failed.error else if body.Throws? then body.error else d.completed.error
                  else (!d.claim.Answered? && e == d.claim.error)
                       || (d.claim.Answered? && !d.look.Answered? && e == d.look.error))
  {
  }

  /** The row of a call whose body ran, field by field. */
  lemma RowIs<T>(rows: Table, key: Key, tenant: Option<string>, lease: int, t: Times, d: Deliveries, body: Body<T>,
                 hashOf: T -> Option<string>)
    requires Invoke(rows, key, tenant, lease, t, d, body, hashOf).bodyRan
    ensures var run := Invoke(rows, key, tenant, lease, t, d, body, hashOf);
            && key in run.rows
            && var row := run.rows[key];
            && row.leaseUntil == t.entered + lease * 1000 && row.startedAt == t.claimed
            && row.attempt == (if key in rows then rows[key].attempt else 0) + 1
            && row.tenantId == (if key in rows then rows[key].tenantId else tenant)
            && (run.answer.Value? ==> row.status.Completed? && row.finishedAt == Some(t.completed) && row.outputHash == hashOf(run.answer.value))
            && (run.answer.Threw? && !d.failed.Refused? ==>
                  row.status.Failed? && row.finishedAt == Some(t.failed)
                  && row.error == Some(if body.Throws? then body.error else d.completed.error))
  {
    var claimed := AfterClaim(rows, key, tenant, t.entered + lease * 1000, t.claimed);
    assert key in claimed;
    assert claimed[key].leaseUntil == t.entered + lease * 1000 && claimed[key].startedAt == t.claimed
           && claimed[key].attempt == (if key in rows then rows[key].attempt else 0) + 1
           && claimed[key].tenantId == if key in rows then rows[key].tenantId else tenant;
    hide AfterClaim, Claimable;
  }

  /** Every other row is as it was. */
  lemma OtherRowsStay<T>(rows: Table, key: Key, tenant: Option<string>, lease: int, t: Times, d: Deliveries, body: Body<T>,
                         hashOf: T -> Option<string>, other: Key)
    requires other != key
    ensures var after := Invoke(rows, key, tenant, lease, t, d, body, hashOf).rows;
            (other in after <==> other in rows) && (other in rows ==> after[other] == rows[other])
  {
  }

  /** Re-running a run that returned is a no-op: nothing is written and the body does not run, at any later time. */
  lemma RerunIsNoOp<T>(rows: Table, key: Key, tenant: Option<string>, lease: int, t: Times, d: Deliveries, body: Body<T>,
                       hashOf: T -> Option<string>, tenant': Option<string>, lease': int, t': Times, d': Deliveries, body': Body<T>)
    requires Invoke(rows, key, tenant, lease, t, d, body, hashOf).answer.Value?
    ensures var first := Invoke(rows, key, tenant, lease, t, d, body, hashOf);
            var second := Invoke(first.rows, key, tenant', lease', t', d', body', hashOf);
            && second.rows == first.rows && !second.bodyRan
            && (d'.claim.Answered? && d'.look.Answered? ==> second.answer == Skipped)
  {
  }

  /** The row a run that threw leaves behind. */
  lemma ThrownRow<T>(rows: Table, key: Key, tenant: Option<string>, lease: int, t: Times, d: Deliveries, body: Body<T>, hashOf: T -> Option<string>)
    requires var first := Invoke(rows, key, tenant, lease, t, d, body, hashOf); first.bodyRan && first.answer.Threw?
    ensures var first := Invoke(rows, key, tenant, lease, t, d, body, hashOf).rows;
            && key in first && first[key].leaseUntil == t.entered + lease * 1000
            && first[key].status == if !d.failed.Refused? then Failed
                                    else if body.Returns? && d.completed.Unanswered? then Completed else Running
  {
  }

  /**
   * After a run that threw, the next delivery runs the body again exactly when the update to 'failed' took effect,
   * or the row was left running and its lease is over; and the attempt is counted. So a body that returned runs
   * again when the update to 'completed' took effect, its answer was lost, and the catch block overwrote it.
   */
  lemma ThrownRunIsRetriedExactly<T>(rows: Table, key: Key, tenant: Option<string>, lease: int, t: Times, d: Deliveries, body: Body<T>,
                                     hashOf: T -> Option<string>, lease': int, t': Times, d': Deliveries, body': Body<T>)
    requires var first := Invoke(rows, key, tenant, lease, t, d, body, hashOf); first.bodyRan && first.answer.Threw?
    requires d'.claim.Answered?
    ensures var first := Invoke(rows, key, tenant, lease, t, d, body, hashOf);
            var second := Invoke(first.rows, key, tenant, lease', t', d', body', hashOf);
            && (second.bodyRan <==>
                 || !d.failed.Refused?
                 || (!(body.Returns? && d.completed.Unanswered?) && t.entered + lease * 1000 < t'.claimed))
            && (second.bodyRan ==> key in first.rows && key in second.rows && second.rows[key].attempt == first.rows[key].attempt + 1)
            && (!second.bodyRan && d'.look.Answered? ==> (second.answer == Skipped <==> body.Returns? && d.completed.Unanswered?))
  {
    ThrownRow(rows, key, tenant, lease, t, d, body, hashOf);
    var first := Invoke(rows, key, tenant, lease, t, d, body, hashOf).rows;
    NextRun(first, key, tenant, lease', t', d', body', hashOf);
    hide Invoke;
  }

  /** A delivery whose claim is answered. */
  lemma NextRun<T>(rows: Table, key: Key, tenant: Option<string>, lease: int, t: Times, d: Deliveries, body: Body<T>, hashOf: T -> Option<string>)
    requires key in rows && d.claim.Answered?
    ensures var run := Invoke(rows, key, tenant, lease, t, d, body, hashOf);
            && (run.bodyRan <==> Reclaimable(rows[key], t.claimed))
            && (run.bodyRan ==> key in run.rows && run.rows[key].attempt == rows[key].attempt + 1)
            && (!run.bodyRan && d.look.Answered? ==> (run.answer == Skipped <==> rows[key].status.Completed?))
  {
  }

  // ---------- Many workers over one ledger and one clock ----------

  datatype Verdict = ReturnedResult | SkippedRun | HeldByOther | Rethrown

  /** Where one call of `idempotent` stands. */
  datatype Phase =
    | Claiming          // the lease end is computed, the claim is not sent
    | Lost              // the claim changed no row; the row is not read yet
    | InBody
    | BodyReturned      // the update to 'completed' is not sent
    | BodyThrew         // the update to 'failed' is not sent
    | Doubted           // the same, after an update to 'completed' that took effect and whose answer was lost
    | Done(verdict: Verdict)
    | Crashed

  datatype Call = Call(key: Key, tenantId: Option<string>, leaseUntil: int, phase: Phase)

  datatype Event =
    | Won(key: Key)        // a claim succeeded
    | BodyOk(key: Key)     // a body returned
    | Recorded(key: Key)   // the update to 'completed' took effect
    | Wasted(key: Key)     // a body returned, but its worker died or its update failed
    | Overturned(key: Key) // the update to 'failed' overwrote an unanswered 'completed'

  datatype State = State(now: int, rows: Table, calls: map<nat, Call>, log: seq<Event>)

  datatype Step =
    | Tick(to: int)
    | Deliver(id: nat, key: Key, tenantId: Option<string>, leaseSeconds: int)   // also every redelivery: a new call
    | Claim(id: nat)
    | ClaimFails(id: nat, applied: bool)   // the claim throws, whether or not it took effect
    | Look(id: nat)
    | LookFails(id: nat)
    | BodyReturns(id: nat)
    | BodyThrows(id: nat)
    | RecordCompleted(id: nat, hash: Option<string>)
    | CompletionFails(id: nat, applied: bool, hash: Option<string>)   // it throws inside the try block, whether or not it took effect
    | RecordFailed(id: nat, error: string)
    | FailureFails(id: nat)      // the update to 'failed' throws
    | Crash(id: nat)

  predicate InPhase(s: State, id: nat, phase: Phase) {
    id in s.calls && s.calls[id].phase == phase
  }

  /** The call's body is running, or it is about to settle the row. */
  predicate Holds(c: Call) {
    c.phase.InBody? || c.phase.BodyReturned? || c.phase.BodyThrew?
  }

  /** The call may still update the row. */
  predicate Live(c: Call) {
    Holds(c) || c.phase.Doubted?
  }

  predicate Active(c: Call) {
    Live(c) || c.phase.Claiming? || c.phase.Lost?
  }

  predicate Enabled(s: State, step: Step) {
    match step
    case Tick(to) => s.now <= to
    case Deliver(id, _, _, _) => id !in s.calls
    case Claim(id) => InPhase(s, id, Claiming)
    case ClaimFails(id, _) => InPhase(s, id, Claiming)
    case Look(id) => InPhase(s, id, Lost)
    case LookFails(id) => InPhase(s, id, Lost)
    case BodyReturns(id) => InPhase(s, id, InBody)
    case BodyThrows(id) => InPhase(s, id, InBody)
    case RecordCompleted(id, _) => InPhase(s, id, BodyReturned)
    case CompletionFails(id, _, _) => InPhase(s, id, BodyReturned)
    case RecordFailed(id, _) => InPhase(s, id, BodyThrew) || InPhase(s, id, Doubted)
    case FailureFails(id) => InPhase(s, id, BodyThrew) || InPhase(s, id, Doubted)
    case Crash(id) => id in s.calls && Active(s.calls[id])
  }

  predicate IsCompleted(s: State, key: Key) {
    key in s.rows && s.rows[key].status.Completed?
  }

  /** The phase a call's own step takes it to. */
  function NextPhase(s: State, step: Step): Phase
    requires Enabled(s, step) && !step.Tick?
  {
    match step
    case Deliver(_, _, _, _) => Claiming
    case Claim(id) => if Claimable(s.rows, s.calls[id].key, s.now) then InBody else Lost
    case ClaimFails(_, _) => Done(Rethrown)
    case LookFails(_) => Done(Rethrown)
    case Look(id) => Done(if IsCompleted(s, s.calls[id].key) then SkippedRun else HeldByOther)
    case BodyReturns(_) => BodyReturned
    case BodyThrows(_) => BodyThrew
    case RecordCompleted(_, _) => Done(ReturnedResult)
    case CompletionFails(_, applied, _) => if applied then Doubted else BodyThrew
    case RecordFailed(_, _) => Done(Rethrown)
    case FailureFails(_) => Done(Rethrown)
    case Crash(_) => Crashed
  }

  function NextRows(s: State, step: Step): Table
    requires Enabled(s, step)
  {
    match step
    case Claim(id) => AfterClaim(s.rows, s.calls[id].key, s.calls[id].tenantId, s.calls[id].leaseUntil, s.now)
    case ClaimFails(id, applied) => if applied then AfterClaim(s.rows, s.calls[id].key, s.calls[id].tenantId, s.calls[id].leaseUntil, s.now) else s.rows
    case RecordCompleted(id, hash) => AfterCompleted(s.rows, s.calls[id].key, s.now, hash)
    case CompletionFails(id, applied, hash) => if applied then AfterCompleted(s.rows, s.calls[id].key, s.now, hash) else s.rows
    case RecordFailed(id, error) => AfterFailed(s.rows, s.calls[id].key, s.now, error)
    case _ => s.rows
  }

  /** What a step adds to the log. */
  function Emitted(s: State, step: Step): seq<Event>
    requires Enabled(s, step)
  {
    match step
    case Claim(id) => if Claimable(s.rows, s.calls[id].key, s.now) then [Won(s.calls[id].key)] else []
    case ClaimFails(id, applied) => if applied && Claimable(s.rows, s.calls[id].key, s.now) then [Won(s.calls[id].key)] else []
    case BodyReturns(id) => [BodyOk(s.calls[id].key)]
    case RecordCompleted(id, _) => [Recorded(s.calls[id].key)]
    case CompletionFails(id, applied, _) => [if applied then Recorded(s.calls[id].key) else Wasted(s.calls[id].key)]
    case RecordFailed(id, _) => if s.calls[id].phase.Doubted? then [Overturned(s.calls[id].key)] else []
    case Crash(id) => if s.calls[id].phase.BodyReturned? then [Wasted(s.calls[id].key)] else []
    case _ => []
  }

  function Next(s: State, step: Step): State
    requires Enabled(s, step)
  {
    match step
    case Tick(to) => s.(now := to)
    case Deliver(id, key, tenantId, leaseSeconds) =>
      s.(calls := s.calls[id := Call(key, tenantId, s.now + leaseSeconds * 1000, NextPhase(s, step))])
    case _ =>
      State(s.now, NextRows(s, step), s.calls[step.id := s.calls[step.id].(phase := NextPhase(s, step))],
            s.log + Emitted(s, step))
  }

  predicate Initial(s: State) {
    s.rows == map[] && s.calls == map[] && s.log == []
  }

  /** Every step of the schedule is possible where it is taken. */
  predicate Possible(s: State, steps: seq<Step>)
    decreases |steps|
  {
    steps == [] || (Enabled(s, steps[0]) && Possible(Next(s, steps[0]), steps[1..]))
  }

  function After(s: State, steps: seq<Step>): State
    requires Possible(s, steps)
    decreases |steps|
  {
    if steps == [] then s else After(Next(s, steps[0]), steps[1..])
  }

  /** Every holder is still within its own lease. */
  ghost predicate Timely(s: State) {
    forall id :: id in s.calls && Holds(s.calls[id]) ==> s.now <= s.calls[id].leaseUntil
  }

  predicate Claims(step: Step) {
    step.Claim? || step.ClaimFails?
  }

  /** The timing assumption: whenever a claim is sent, every holder is within its lease. */
  ghost predicate TimelyRun(s: State, steps: seq<Step>)
    requires Possible(s, steps)
    decreases |steps|
  {
    steps != [] ==> (Claims(steps[0]) ==> Timely(s)) && TimelyRun(Next(s, steps[0]), steps[1..])
  }

  // ---------- What holds with no timing assumption ----------

  function Count(s: State, e: Event): nat {
    multiset(s.log)[e]
  }

  lemma StepEmits(s: State, step: Step, e: Event)
    requires Enabled(s, step)
    ensures Count(Next(s, step), e) == Count(s, e) + if e in Emitted(s, step) then 1 else 0
  {
    assert Next(s, step).log == s.log + Emitted(s, step);
  }

  ghost predicate KeyCounted(s: State, key: Key) {
    && Count(s, Won(key)) == (if key in s.rows then s.rows[key].attempt else 0)
    && (IsCompleted(s, key) ==> Count(s, Recorded(key)) > 0)
    && (Count(s, Recorded(key)) > 0 ==> Count(s, BodyOk(key)) > 0)
  }

  ghost predicate CallCounted(s: State, id: nat) {
    id in s.calls ==>
      var c := s.calls[id];
      && (Live(c) || c.phase.Lost? ==> c.key in s.rows)
      && (c.phase.BodyReturned? ==> Count(s, BodyOk(c.key)) > 0)
      && (c.phase == Done(SkippedRun) ==> Count(s, Recorded(c.key)) > 0)
  }

  ghost predicate Counted(s: State) {
    (forall key :: KeyCounted(s, key)) && (forall id :: CallCounted(s, id))
  }

  lemma StepKeepsAttempt(s: State, step: Step, key: Key)
    requires Enabled(s, step) && KeyCounted(s, key)
    ensures Count(Next(s, step), Won(key)) == if key in Next(s, step).rows then Next(s, step).rows[key].attempt else 0
  {
    hide Count;
    StepEmits(s, step, Won(key));
  }

  lemma StepKeepsRecorded(s: State, step: Step, key: Key)
    requires Enabled(s, step) && KeyCounted(s, key)
    ensures IsCompleted(Next(s, step), key) ==> Count(Next(s, step), Recorded(key)) > 0
  {
    hide Count;
    StepEmits(s, step, Recorded(key));
  }

  lemma StepKeepsSuccess(s: State, step: Step, key: Key)
    requires Enabled(s, step) && KeyCounted(s, key) && (!step.Tick? ==> CallCounted(s, step.id))
    ensures Count(Next(s, step), Recorded(key)) > 0 ==> Count(Next(s, step), BodyOk(key)) > 0
  {
    hide Count, NextPhase, NextRows;
    StepEmits(s, step, Recorded(key));
    StepEmits(s, step, BodyOk(key));
    hide Next;
  }

  lemma StepKeepsKey(s: State, step: Step, key: Key)
    requires Enabled(s, step) && KeyCounted(s, key) && (!step.Tick? ==> CallCounted(s, step.id))
    ensures KeyCounted(Next(s, step), key)
  {
    StepKeepsAttempt(s, step, key);
    StepKeepsRecorded(s, step, key);
    StepKeepsSuccess(s, step, key);
    hide Count, Next, Enabled, IsCompleted;
  }

  lemma StepKeepsCall(s: State, step: Step, id: nat)
    requires Enabled(s, step) && CallCounted(s, id)
    requires id in s.calls ==> KeyCounted(s, s.calls[id].key)
    ensures CallCounted(Next(s, step), id)
  {
    hide Count;
    if id in Next(s, step).calls {
      StepEmits(s, step, BodyOk(Next(s, step).calls[id].key));
      StepEmits(s, step, Recorded(Next(s, step).calls[id].key));
    }
  }

  lemma StepKeepsCounted(s: State, step: Step)
    requires Counted(s) && Enabled(s, step)
    ensures Counted(Next(s, step))
  {
    hide KeyCounted, CallCounted, Next, Enabled;
    forall key ensures KeyCounted(Next(s, step), key) { StepKeepsKey(s, step, key); }
    forall id ensures CallCounted(Next(s, step), id) { StepKeepsCall(s, step, id); }
  }

  lemma {:induction false} RunKeepsCounted(s: State, steps: seq<Step>)
    requires Counted(s) && Possible(s, steps)
    ensures Counted(After(s, steps))
    decreases |steps|
  {
    if steps != [] {
      StepKeepsCounted(s, steps[0]);
      RunKeepsCounted(Next(s, steps[0]), steps[1..]);
    }
  }

  /**
   * In every interleaving, with no timing assumption at all: a row's `attempt` is the number of
   * claims that succeeded for its key, and a call answers 'skipped' only when the update to
   * 'completed' has been made for its key, by a worker whose body returned.
   */
  lemma AttemptCountsClaims(s: State, steps: seq<Step>)
    requires Initial(s) && Possible(s, steps)
    ensures var end := After(s, steps);
            && (forall key :: multiset(end.log)[Won(key)] == if key in end.rows then end.rows[key].attempt else 0)
            && (forall id :: InPhase(end, id, Done(SkippedRun)) ==>
                  Recorded(end.calls[id].key) in end.log && BodyOk(end.calls[id].key) in end.log)
  {
    RunKeepsCounted(s, steps);
    var end := After(s, steps);
    forall key ensures multiset(end.log)[Won(key)] == if key in end.rows then end.rows[key].attempt else 0 {
      assert KeyCounted(end, key);
    }
    forall id | InPhase(end, id, Done(SkippedRun))
      ensures Recorded(end.calls[id].key) in end.log && BodyOk(end.calls[id].key) in end.log
    {
      assert CallCounted(end, id) && KeyCounted(end, end.calls[id].key);
    }
  }

  // ---------- What the timing assumption adds ----------

  ghost predicate OneHolder(s: State) {
    forall a, b :: a in s.calls && b in s.calls && Live(s.calls[a]) && Live(s.calls[b])
                   && s.calls[a].key == s.calls[b].key
                   ==> a == b
  }

  ghost predicate RowNamesHolder(s: State) {
    forall id :: id in s.calls && Live(s.calls[id]) ==>
      && s.calls[id].key in s.rows
      && (if Holds(s.calls[id]) then s.rows[s.calls[id].key].status.Running? else s.rows[s.calls[id].key].status.Completed?)
      && s.rows[s.calls[id].key].leaseUntil == s.calls[id].leaseUntil
  }

  /** One holder per key, and it is the one the row names; a completed row has none, unless its completion is in doubt. */
  ghost predicate Exclusive(s: State) {
    OneHolder(s) && RowNamesHolder(s)
  }

  /** A claim by a call wins against a holder of the same key only when that holder is late. */
  lemma StepKeepsHolder(s: State, step: Step)
    requires Exclusive(s) && Enabled(s, step) && (Claims(step) ==> Timely(s))
    ensures OneHolder(Next(s, step))
  {
  }

  lemma StepKeepsRowName(s: State, step: Step)
    requires Exclusive(s) && Enabled(s, step) && (Claims(step) ==> Timely(s))
    ensures RowNamesHolder(Next(s, step))
  {
  }

  /** The answer to the update that completed the row was lost, and its call is about to update it to 'failed'. */
  ghost predicate InDoubt(s: State, key: Key) {
    exists id :: InPhase(s, id, Doubted) && s.calls[id].key == key
  }

  /** A completed row is not touched again, unless it is in doubt; and it does not come into doubt later. */
  lemma StepKeepsCompleted(s: State, step: Step, key: Key)
    requires Exclusive(s) && Enabled(s, step) && IsCompleted(s, key) && !InDoubt(s, key)
    ensures IsCompleted(Next(s, step), key) && Next(s, step).rows[key] == s.rows[key] && !InDoubt(Next(s, step), key)
  {
  }

  lemma {:induction false} RunKeepsExclusive(s: State, steps: seq<Step>)
    requires Exclusive(s) && Possible(s, steps) && TimelyRun(s, steps)
    ensures Exclusive(After(s, steps))
    decreases |steps|
  {
    if steps != [] {
      StepKeepsHolder(s, steps[0]);
      StepKeepsRowName(s, steps[0]);
      RunKeepsExclusive(Next(s, steps[0]), steps[1..]);
    }
  }

  /** Mutual exclusion: in every timely interleaving at most one live worker runs a given (job, run). */
  lemma MutualExclusion(s: State, steps: seq<Step>, a: nat, b: nat)
    requires Initial(s) && Possible(s, steps) && TimelyRun(s, steps)
    requires var end := After(s, steps);
             && a in end.calls && b in end.calls && end.calls[a].key == end.calls[b].key
             && Live(end.calls[a]) && Live(end.calls[b])
    ensures a == b
  {
    RunKeepsExclusive(s, steps);
  }

  lemma {:induction false} RunKeepsCompleted(s: State, steps: seq<Step>, key: Key)
    requires Exclusive(s) && Possible(s, steps) && TimelyRun(s, steps)
    requires IsCompleted(s, key) && !InDoubt(s, key)
    ensures IsCompleted(After(s, steps), key) && After(s, steps).rows[key] == s.rows[key]
    decreases |steps|
  {
    if steps != [] {
      StepKeepsCompleted(s, steps[0], key);
      StepKeepsHolder(s, steps[0]);
      StepKeepsRowName(s, steps[0]);
      hide Exclusive, Next, Enabled, InDoubt, IsCompleted, Timely;
      assert Exclusive(Next(s, steps[0])) by { ExclusiveFromParts(Next(s, steps[0])); }
      RunKeepsCompleted(Next(s, steps[0]), steps[1..], key);
    }
  }

  lemma OneStep(s: State, step: Step)
    requires Enabled(s, step)
    ensures Possible(s, [step]) && After(s, [step]) == Next(s, step) && (!Claims(step) ==> TimelyRun(s, [step]))
  {
    hide Next, Enabled;
    assert [step][0] == step && [step][1..] == [];
  }

  /** 'completed' is final, in that every timely continuation keeps the row exactly as it is, if and only if it is not in doubt. */
  lemma CompletedIsFinalExactly(s: State, key: Key)
    requires Exclusive(s) && IsCompleted(s, key)
    ensures (forall steps :: Possible(s, steps) && TimelyRun(s, steps) ==>
               key in After(s, steps).rows && After(s, steps).rows[key] == s.rows[key])
            <==> !InDoubt(s, key)
  {
    if InDoubt(s, key) {
      var id :| InPhase(s, id, Doubted) && s.calls[id].key == key;
      var step := RecordFailed(id, "connection lost");
      assert Next(s, step).rows[key].status.Failed?;
      OneStep(s, step);
    } else {
      forall steps | Possible(s, steps) && TimelyRun(s, steps)
        ensures key in After(s, steps).rows && After(s, steps).rows[key] == s.rows[key]
      {
        RunKeepsCompleted(s, steps, key);
      }
    }
  }

  /**
   * The timing assumption is what the protocol rests on: in an exclusive state, a claim for a held
   * key breaks exclusion exactly when the holder has outlived its lease.
   */
  lemma ExclusionBreaksExactlyWhenLate(s: State, holder: nat, claimant: nat)
    requires Exclusive(s) && InPhase(s, claimant, Claiming)
    requires holder in s.calls && Holds(s.calls[holder]) && s.calls[holder].key == s.calls[claimant].key
    ensures Exclusive(Next(s, Claim(claimant))) <==> s.now <= s.calls[holder].leaseUntil
  {
    var t := Next(s, Claim(claimant));
    assert t.calls[holder] == s.calls[holder];
    if s.now > s.calls[holder].leaseUntil {
      assert Holds(t.calls[claimant]);
    } else {
      assert t.rows == s.rows && !Holds(t.calls[claimant]);
      assert forall id :: id in t.calls && Live(t.calls[id]) ==> id in s.calls && t.calls[id] == s.calls[id];
    }
  }

  // ---------- How often a body succeeds ----------

  ghost predicate Finishing(s: State, key: Key) {
    exists id :: InPhase(s, id, BodyReturned) && s.calls[id].key == key
  }

  /** Every success of a body is recorded, wasted, or about to be recorded. */
  ghost predicate Balanced(s: State, key: Key) {
    && Count(s, Recorded(key)) == (if IsCompleted(s, key) then 1 else 0) + Count(s, Overturned(key))
    && Count(s, BodyOk(key)) == Count(s, Recorded(key)) + Count(s, Wasted(key))
                                 + (if Finishing(s, key) then 1 else 0)
  }

  ghost predicate ResultsRecorded(s: State) {
    && (forall id :: InPhase(s, id, Done(ReturnedResult)) ==> IsCompleted(s, s.calls[id].key) && !InDoubt(s, s.calls[id].key))
    && (forall a, b :: SharedResult(s, a, b) ==> a == b)
  }

  /** Two calls for one key that both return the body's result. */
  predicate SharedResult(s: State, a: nat, b: nat) {
    && InPhase(s, a, Done(ReturnedResult))
    && InPhase(s, b, Done(ReturnedResult))
    && s.calls[a].key == s.calls[b].key
  }

  lemma StepKeepsRecordedBalance(s: State, step: Step, key: Key)
    requires RowNamesHolder(s) && Balanced(s, key) && Enabled(s, step)
    ensures Count(Next(s, step), Recorded(key)) == (if IsCompleted(Next(s, step), key) then 1 else 0) + Count(Next(s, step), Overturned(key))
  {
    hide Count, Finishing;
    StepEmits(s, step, Recorded(key));
    StepEmits(s, step, Overturned(key));
  }

  function One(b: bool): int {
    if b then 1 else 0
  }

  /** A worker starts to finish when its body returns and stops when the success is recorded or wasted. */
  lemma StepMovesFinishing(s: State, step: Step, key: Key)
    requires Exclusive(s) && Enabled(s, step)
    ensures One(Finishing(Next(s, step), key)) == One(Finishing(s, key)) + One(BodyOk(key) in Emitted(s, step))
            - One(Recorded(key) in Emitted(s, step)) - One(Wasted(key) in Emitted(s, step))
  {
    var t := Next(s, step);
    if step.Tick? {
      assert t.calls == s.calls;
    } else {
      assert forall i :: i != step.id ==> (InPhase(s, i, BodyReturned) <==> InPhase(t, i, BodyReturned));
      assert forall i :: i != step.id && i in s.calls ==> t.calls[i] == s.calls[i];
      if step.BodyReturns? {
        assert InPhase(t, step.id, BodyReturned);
      }
    }
  }

  lemma StepKeepsBalance(s: State, step: Step, key: Key)
    requires Exclusive(s) && Balanced(s, key) && Enabled(s, step)
    ensures Balanced(Next(s, step), key)
  {
    StepKeepsRecordedBalance(s, step, key);
    StepMovesFinishing(s, step, key);
    StepEmits(s, step, BodyOk(key));
    StepEmits(s, step, Recorded(key));
    StepEmits(s, step, Wasted(key));
    hide Count, Exclusive, Finishing, Next, Emitted, Enabled, IsCompleted;
  }

  lemma StepKeepsResult(s: State, step: Step, id: nat)
    requires Exclusive(s) && ResultsRecorded(s) && Enabled(s, step)
    requires InPhase(Next(s, step), id, Done(ReturnedResult))
    ensures IsCompleted(Next(s, step), Next(s, step).calls[id].key) && !InDoubt(Next(s, step), Next(s, step).calls[id].key)
    ensures !InPhase(s, id, Done(ReturnedResult)) ==> step == RecordCompleted(id, step.hash)
  {
    if InPhase(s, id, Done(ReturnedResult)) {
      StepKeepsCompleted(s, step, s.calls[id].key);
    } else {
      assert Holds(s.calls[id]);
    }
  }

  lemma StepKeepsResults(s: State, step: Step)
    requires Exclusive(s) && ResultsRecorded(s) && Enabled(s, step)
    ensures ResultsRecorded(Next(s, step))
  {
    var t := Next(s, step);
    forall id | InPhase(t, id, Done(ReturnedResult)) ensures IsCompleted(t, t.calls[id].key) && !InDoubt(t, t.calls[id].key) {
      StepKeepsResult(s, step, id);
    }
    forall a, b | SharedResult(t, a, b) ensures a == b {
      if a != b {
        NewResultIsAlone(s, step, a, b);
      }
    }
  }

  /** A call records its result only while its row is running, so no other call has recorded one. */
  lemma NewResultIsAlone(s: State, step: Step, a: nat, b: nat)
    requires Exclusive(s) && ResultsRecorded(s) && Enabled(s, step)
    requires SharedResult(Next(s, step), a, b) && a != b
    ensures InPhase(s, a, Done(ReturnedResult)) && SharedResult(s, a, b)
  {
    StepKeepsResult(s, step, a);
    StepKeepsResult(s, step, b);
    if !InPhase(s, a, Done(ReturnedResult)) {
      assert false;
    }
    if !InPhase(s, b, Done(ReturnedResult)) {
      assert false;
    }
  }

  lemma {:induction false} RunKeepsBalance(s: State, steps: seq<Step>, key: Key)
    requires Exclusive(s) && Balanced(s, key) && ResultsRecorded(s)
    requires Possible(s, steps) && TimelyRun(s, steps)
    ensures Balanced(After(s, steps), key) && ResultsRecorded(After(s, steps)) && Exclusive(After(s, steps))
    decreases |steps|
  {
    if steps != [] {
      hide Exclusive, Balanced, ResultsRecorded, Next, Enabled;
      StepKeepsHolder(s, steps[0]);
      StepKeepsRowName(s, steps[0]);
      StepKeepsBalance(s, steps[0], key);
      StepKeepsResults(s, steps[0]);
      assert Exclusive(Next(s, steps[0])) by { ExclusiveFromParts(Next(s, steps[0])); }
      RunKeepsBalance(Next(s, steps[0]), steps[1..], key);
    }
  }

  lemma ExclusiveFromParts(s: State)
    requires OneHolder(s) && RowNamesHolder(s)
    ensures Exclusive(s)
  {
  }

  /**
   * In every timely interleaving at most one call per key ever returns the body's result, and a success stays
   * recorded unless it was overturned; a body succeeds again only after an earlier success was wasted by a
   * crash or a failed update, or overturned after an update whose answer was lost.
   */
  lemma SuccessIsRecordedOnce(s: State, steps: seq<Step>, key: Key)
    requires Initial(s) && Possible(s, steps) && TimelyRun(s, steps)
    ensures var end := After(s, steps);
            && multiset(end.log)[Recorded(key)] == (if IsCompleted(end, key) then 1 else 0) + multiset(end.log)[Overturned(key)]
            && multiset(end.log)[BodyOk(key)] <= 1 + multiset(end.log)[Wasted(key)] + multiset(end.log)[Overturned(key)]
            && (forall a, b :: SharedResult(end, a, b) ==> a == b)
  {
    RunKeepsBalance(s, steps, key);
    var end := After(s, steps);
    assert !(IsCompleted(end, key) && Finishing(end, key));
  }

  // ---------- The traces that break without the assumption ----------

  const KEY := Key("validate.run", "r1")

  /** A worker outlives its one-second lease, is stolen from, and later overwrites the thief's 'completed'. */
  const LATE_HOLDER: seq<Step> := [
    Deliver(0, KEY, None, 1), Claim(0), Tick(1001), Deliver(1, KEY, None, 1), Claim(1)
  ]

  const THIEF_COMPLETES: seq<Step> := [BodyReturns(1), RecordCompleted(1, None)]

  const LATE_FAILS: seq<Step> := [BodyThrows(0), RecordFailed(0, "late")]

  lemma LateHolderBreaksExclusion()
    ensures var s := State(0, map[], map[], []);
            && Initial(s) && Possible(s, LATE_HOLDER)
            && InPhase(After(s, LATE_HOLDER), 0, InBody) && InPhase(After(s, LATE_HOLDER), 1, InBody)
            && Possible(After(s, LATE_HOLDER), THIEF_COMPLETES)
            && var mid := After(After(s, LATE_HOLDER), THIEF_COMPLETES);
            && IsCompleted(mid, KEY)
            && Possible(mid, LATE_FAILS)
            && !IsCompleted(After(mid, LATE_FAILS), KEY)
  {
    var s := State(0, map[], map[], []);
    ClaimsAlone(s);
    StealsTheLease(Next(Next(s, LATE_HOLDER[0]), LATE_HOLDER[1]));
    hide Next, Enabled;
    assert LATE_HOLDER[1..][1..] == LATE_HOLDER[2..];
    Prepend(Next(s, LATE_HOLDER[0]), LATE_HOLDER[1..]);
    Prepend(s, LATE_HOLDER);
    LateOverwrites(After(s, LATE_HOLDER), Row(None, Running, 2, 2001, 1001, None, None, None));
  }

  /** The first two steps of both runs. */
  lemma ClaimsAlone(s: State)
    requires s == State(0, map[], map[], [])
    ensures Enabled(s, Deliver(0, KEY, None, 1)) && Enabled(Next(s, Deliver(0, KEY, None, 1)), Claim(0)) && Timely(Next(s, Deliver(0, KEY, None, 1)))
    ensures Next(Next(s, Deliver(0, KEY, None, 1)), Claim(0))
         == State(0, map[KEY := Row(None, Running, 1, 1000, 0, None, None, None)], map[0 := Call(KEY, None, 1000, InBody)], [Won(KEY)])
  {
  }

  /** The second worker arrives after the lease of the first and claims the row. */
  lemma StealsTheLease(s: State)
    requires s == State(0, map[KEY := Row(None, Running, 1, 1000, 0, None, None, None)], map[0 := Call(KEY, None, 1000, InBody)], [Won(KEY)])
    ensures Possible(s, LATE_HOLDER[2..])
    ensures After(s, LATE_HOLDER[2..]) == State(1001, map[KEY := Row(None, Running, 2, 2001, 1001, None, None, None)],
                                                map[0 := Call(KEY, None, 1000, InBody), 1 := Call(KEY, None, 2001, InBody)], [Won(KEY), Won(KEY)])
  {
    var s1 := s.(now := 1001);
    assert Next(s, LATE_HOLDER[2]) == s1;
    var s2 := s1.(calls := map[0 := Call(KEY, None, 1000, InBody), 1 := Call(KEY, None, 2001, Claiming)]);
    assert Next(s1, LATE_HOLDER[3]) == s2;
    Steals(s2);
    hide Next;
    Prepend(s2, LATE_HOLDER[4..]);
    Prepend(s1, LATE_HOLDER[3..]);
    Prepend(s, LATE_HOLDER[2..]);
  }

  lemma Steals(s: State)
    requires s == State(1001, map[KEY := Row(None, Running, 1, 1000, 0, None, None, None)],
                        map[0 := Call(KEY, None, 1000, InBody), 1 := Call(KEY, None, 2001, Claiming)], [Won(KEY)])
    ensures Next(s, Claim(1)) == State(1001, map[KEY := Row(None, Running, 2, 2001, 1001, None, None, None)],
                                       map[0 := Call(KEY, None, 1000, InBody), 1 := Call(KEY, None, 2001, InBody)], [Won(KEY), Won(KEY)])
  {
  }

  lemma LateOverwrites(s: State, row: Row)
    requires s.rows == map[KEY := row] && s.calls == map[0 := Call(KEY, None, 1000, InBody), 1 := Call(KEY, None, 2001, InBody)]
    ensures Possible(s, THIEF_COMPLETES)
    ensures var mid := After(s, THIEF_COMPLETES);
            IsCompleted(mid, KEY) && Possible(mid, LATE_FAILS) && !IsCompleted(After(mid, LATE_FAILS), KEY)
  {
    var s1 := Next(s, THIEF_COMPLETES[0]);
    var s2 := Next(s1, THIEF_COMPLETES[1]);
    Prepend(s1, THIEF_COMPLETES[1..]);
    Prepend(s, THIEF_COMPLETES);
    var s3 := Next(s2, LATE_FAILS[0]);
    Prepend(s3, LATE_FAILS[1..]);
    Prepend(s2, LATE_FAILS);
  }

  /** The answer to the update to 'completed' is lost; the catch block overwrites it, and the next delivery runs the body again. */
  const LOST_ANSWER: seq<Step> := [
    Deliver(0, KEY, None, 1), Claim(0), BodyReturns(0), CompletionFails(0, true, None)
  ]

  const OVERWRITES: seq<Step> := [RecordFailed(0, "connection lost"), Deliver(1, KEY, None, 1), Claim(1), BodyReturns(1)]

  lemma LostAnswerRepeatsTheBody()
    ensures var s := State(0, map[], map[], []);
            && Initial(s) && Possible(s, LOST_ANSWER) && TimelyRun(s, LOST_ANSWER)
            && var mid := After(s, LOST_ANSWER);
            && IsCompleted(mid, KEY) && InDoubt(mid, KEY)
            && Possible(mid, OVERWRITES) && TimelyRun(mid, OVERWRITES)
            && var end := After(mid, OVERWRITES);
            && !IsCompleted(end, KEY) && end.log == [Won(KEY), BodyOk(KEY), Recorded(KEY), Overturned(KEY), Won(KEY), BodyOk(KEY)]
  {
    var s := State(0, map[], map[], []);
    ClaimsAlone(s);
    var s1 := Next(s, LOST_ANSWER[0]);
    var s2 := Next(s1, LOST_ANSWER[1]);
    var s3 := Next(s2, LOST_ANSWER[2]);
    var row := Row(None, Completed, 1, 1000, 0, Some(0), None, None);
    var s4 := State(0, map[KEY := row], map[0 := Call(KEY, None, 1000, Doubted)], [Won(KEY), BodyOk(KEY), Recorded(KEY)]);
    assert Next(s3, LOST_ANSWER[3]) == s4 by {
      hide AfterClaim;
    }
    hide Next, AfterClaim;
    Prepend(s3, LOST_ANSWER[3..]);
    Prepend(s2, LOST_ANSWER[2..]);
    hide Enabled, Timely;
    assert LOST_ANSWER[1..][1..] == LOST_ANSWER[2..];
    Prepend(s1, LOST_ANSWER[1..]);
    Prepend(s, LOST_ANSWER);
    assert InPhase(s4, 0, Doubted);
    OverturnsAndRepeats(s4, row);
  }

  lemma OverturnsAndRepeats(s: State, row: Row)
    requires s == State(0, map[KEY := row], map[0 := Call(KEY, None, 1000, Doubted)], [Won(KEY), BodyOk(KEY), Recorded(KEY)])
    requires row.status.Completed?
    ensures Possible(s, OVERWRITES) && TimelyRun(s, OVERWRITES)
    ensures var end := After(s, OVERWRITES);
            !IsCompleted(end, KEY) && end.log == [Won(KEY), BodyOk(KEY), Recorded(KEY), Overturned(KEY), Won(KEY), BodyOk(KEY)]
  {
    var s1 := Next(s, OVERWRITES[0]);
    assert s1.log == [Won(KEY), BodyOk(KEY), Recorded(KEY), Overturned(KEY)] && s1.rows[KEY].status.Failed?;
    var s2 := Next(s1, OVERWRITES[1]);
    var s3 := Next(s2, OVERWRITES[2]);
    assert s3.calls[1].phase.InBody? && s3.rows[KEY].status.Running?;
    assert s3.log == [Won(KEY), BodyOk(KEY), Recorded(KEY), Overturned(KEY), Won(KEY)];
    hide AfterClaim, AfterFailed;
    Prepend(s3, OVERWRITES[3..]);
    hide Next;
    Prepend(s2, OVERWRITES[2..]);
    Prepend(s1, OVERWRITES[1..]);
    Prepend(s, OVERWRITES);
  }

  lemma Prepend(s: State, steps: seq<Step>)
    requires steps != [] && Enabled(s, steps[0]) && Possible(Next(s, steps[0]), steps[1..])
    ensures Possible(s, steps) && After(s, steps) == After(Next(s, steps[0]), steps[1..])
    ensures (Claims(steps[0]) ==> Timely(s)) && TimelyRun(Next(s, steps[0]), steps[1..]) ==> TimelyRun(s, steps)
  {
  }

  // ---------- One call is a schedule of steps ----------

  function VerdictOf<T>(answer: Answer<T>): Verdict {
    match answer
    case Value(_) => ReturnedResult
    case Skipped => SkippedRun
    case LeaseHeld(_) => HeldByOther
    case Threw(_) => Rethrown
  }

  function FailSteps(id: nat, at: int, error: string, failed: Delivery): seq<Step> {
    [Tick(at), if failed.Refused? then FailureFails(id) else RecordFailed(id, error)]
  }

  function BodySteps<T>(id: nat, t: Times, d: Deliveries, body: Body<T>, hashOf: T -> Option<string>): seq<Step> {
    match body
    case Throws(e) => [BodyThrows(id)] + FailSteps(id, t.failed, e, d.failed)
    case Returns(v) =>
      match d.completed
      case Answered => [BodyReturns(id), Tick(t.completed), RecordCompleted(id, hashOf(v))]
      case _ =>
        [BodyReturns(id), Tick(t.completed), CompletionFails(id, d.completed.Unanswered?, hashOf(v))]
        + FailSteps(id, t.failed, d.completed.error, d.failed)
  }

  /** From the claim on. */
  function ClaimSteps<T>(rows: Table, id: nat, key: Key, t: Times, d: Deliveries, body: Body<T>, hashOf: T -> Option<string>): seq<Step> {
    if !d.claim.Answered? then [ClaimFails(id, d.claim.Unanswered?)]
    else if !Claimable(rows, key, t.claimed) then [Claim(id), if d.look.Answered? then Look(id) else LookFails(id)]
    else [Claim(id)] + BodySteps(id, t, d, body, hashOf)
  }

  function CallSteps<T>(rows: Table, id: nat, key: Key, tenant: Option<string>, lease: int, t: Times, d: Deliveries,
                        body: Body<T>, hashOf: T -> Option<string>): seq<Step> {
    [Tick(t.entered), Deliver(id, key, tenant, lease), Tick(t.claimed)] + ClaimSteps(rows, id, key, t, d, body, hashOf)
  }

  /** The readings that a call takes are in order. */
  predicate InOrder<T>(now: int, t: Times, body: Body<T>) {
    now <= t.entered <= t.claimed && (if body.Returns? then t.claimed <= t.completed <= t.failed else t.claimed <= t.failed)
  }

  lemma {:induction false} RunsOn(s: State, a: seq<Step>, b: seq<Step>)
    requires Possible(s, a) && Possible(After(s, a), b)
    ensures Possible(s, a + b) && After(s, a + b) == After(After(s, a), b)
    decreases |a|
  {
    if a == [] {
      assert a + b == b;
    } else {
      hide Enabled, Next;
      assert (a + b)[0] == a[0] && (a + b)[1..] == a[1..] + b;
      RunsOn(Next(s, a[0]), a[1..], b);
    }
  }

  lemma TwoSteps(s: State, a: Step, b: Step)
    requires Enabled(s, a) && Enabled(Next(s, a), b)
    ensures Possible(s, [a, b]) && After(s, [a, b]) == Next(Next(s, a), b)
  {
    hide Enabled, Next;
    assert [a, b][1..] == [b];
    OneStep(Next(s, a), b);
    Prepend(s, [a, b]);
  }

  lemma ThreeSteps(s: State, a: Step, b: Step, c: Step)
    requires Enabled(s, a) && Enabled(Next(s, a), b) && Enabled(Next(Next(s, a), b), c)
    ensures Possible(s, [a, b, c]) && After(s, [a, b, c]) == Next(Next(Next(s, a), b), c)
  {
    hide Enabled, Next;
    assert [a, b, c][1..] == [b, c];
    TwoSteps(Next(s, a), b, c);
    Prepend(s, [a, b, c]);
  }

  /** The call has come to an end: these rows, this verdict, and what the log gained. */
  ghost predicate Ended(s: State, end: State, id: nat, call: Call, rows: Table, verdict: Verdict, succeeded: bool) {
    && end.rows == rows && end.calls == s.calls[id := call.(phase := Done(verdict))]
    && Count(end, BodyOk(call.key)) == Count(s, BodyOk(call.key)) + One(succeeded)
  }

  lemma FailRuns<T>(s: State, id: nat, call: Call, t: Times, error: string, failed: Delivery)
    requires id in s.calls && s.calls[id] == call && (call.phase.BodyThrew? || call.phase.Doubted?) && s.now <= t.failed
    ensures var steps := FailSteps(id, t.failed, error, failed);
            var run: Run<T> := Fail(s.rows, call.key, t.failed, error, failed);
            Possible(s, steps) && Ended(s, After(s, steps), id, call, run.rows, VerdictOf(run.answer), false)
  {
    var last := if failed.Refused? then FailureFails(id) else RecordFailed(id, error);
    var s1 := s.(now := t.failed);
    assert Next(s, Tick(t.failed)) == s1;
    StepEmits(s1, last, BodyOk(call.key));
    assert Count(s1, BodyOk(call.key)) == Count(s, BodyOk(call.key));
    hide Count, AfterFailed;
    assert Enabled(s1, last);
    TwoSteps(s, Tick(t.failed), last);
    hide Possible, After;
  }

  /** The body and what follows it. */
  lemma BodyRuns<T>(s: State, id: nat, call: Call, t: Times, d: Deliveries, body: Body<T>, hashOf: T -> Option<string>)
    requires id in s.calls && s.calls[id] == call && call.phase.InBody? && s.now == t.claimed && InOrder(t.entered, t, body)
    ensures var steps := BodySteps(id, t, d, body, hashOf);
            var run := Settle(s.rows, call.key, t, d, body, hashOf);
            Possible(s, steps) && Ended(s, After(s, steps), id, call, run.rows, VerdictOf(run.answer), body.Returns?)
  {
    match body
    case Throws(e) =>
      ThrowRuns(s, id, call, t, d, body, hashOf);
    case Returns(v) =>
      ReturnRuns(s, id, call, t, d, body, hashOf);
  }

  lemma ThrowRuns<T>(s: State, id: nat, call: Call, t: Times, d: Deliveries, body: Body<T>, hashOf: T -> Option<string>)
    requires id in s.calls && s.calls[id] == call && call.phase.InBody? && s.now <= t.failed && body.Throws?
    ensures var steps := BodySteps(id, t, d, body, hashOf);
            var run := Settle(s.rows, call.key, t, d, body, hashOf);
            Possible(s, steps) && Ended(s, After(s, steps), id, call, run.rows, VerdictOf(run.answer), false)
  {
    var step := BodyThrows(id);
    var s1 := Next(s, step);
    assert s1 == State(s.now, s.rows, s.calls[id := call.(phase := BodyThrew)], s.log) by {
      assert s.log + [] == s.log;
    }
    assert Enabled(s, step);
    hide Next, Enabled, Possible, After, FailSteps, Fail, VerdictOf;
    FailRuns<T>(s1, id, call.(phase := BodyThrew), t, body.error, d.failed);
    var rest := FailSteps(id, t.failed, body.error, d.failed);
    assert ([step] + rest)[1..] == rest;
    Prepend(s, [step] + rest);
    EndedFrom(s, s1, After(s1, rest), id, call, Fail<T>(s.rows, call.key, t.failed, body.error, d.failed).rows,
              VerdictOf(Fail<T>(s.rows, call.key, t.failed, body.error, d.failed).answer), false);
  }

  /** Ending from a later state of the same call. */
  lemma EndedFrom(s: State, s1: State, end: State, id: nat, call: Call, rows: Table, verdict: Verdict, succeeded: bool)
    requires id in s1.calls && s1.calls == s.calls[id := s1.calls[id]] && s1.calls[id] == call.(phase := s1.calls[id].phase)
    requires Ended(s1, end, id, s1.calls[id], rows, verdict, false)
    requires Count(s1, BodyOk(call.key)) == Count(s, BodyOk(call.key)) + One(succeeded)
    ensures Ended(s, end, id, call, rows, verdict, succeeded)
  {
    hide Count;
  }

  lemma ReturnRuns<T>(s: State, id: nat, call: Call, t: Times, d: Deliveries, body: Body<T>, hashOf: T -> Option<string>)
    requires id in s.calls && s.calls[id] == call && call.phase.InBody? && body.Returns? && s.now <= t.completed <= t.failed
    ensures var steps := BodySteps(id, t, d, body, hashOf);
            var run := Settle(s.rows, call.key, t, d, body, hashOf);
            Possible(s, steps) && Ended(s, After(s, steps), id, call, run.rows, VerdictOf(run.answer), true)
  {
    var hash := hashOf(body.value);
    var last := if d.completed.Answered? then RecordCompleted(id, hash) else CompletionFails(id, d.completed.Unanswered?, hash);
    var s3 := SettlingState(s, id, call, t, last);
    hide Next, Enabled;
    ThreeSteps(s, BodyReturns(id), Tick(t.completed), last);
    var first := [BodyReturns(id), Tick(t.completed), last];
    if !d.completed.Answered? {
      hide Possible, After, Count, Fail, VerdictOf, FailSteps, AfterCompleted;
      FailRuns<T>(s3, id, s3.calls[id], t, d.completed.error, d.failed);
      var rest := FailSteps(id, t.failed, d.completed.error, d.failed);
      RunsOn(s, first, rest);
      var run := Fail<T>(s3.rows, call.key, t.failed, d.completed.error, d.failed);
      EndedFrom(s, s3, After(s3, rest), id, call, run.rows, VerdictOf(run.answer), true);
    }
  }

  /** The body has returned, and the update to 'completed' has been sent. */
  lemma SettlingState(s: State, id: nat, call: Call, t: Times, last: Step) returns (s3: State)
    requires id in s.calls && s.calls[id] == call && call.phase.InBody? && s.now <= t.completed
    requires (last.RecordCompleted? || last.CompletionFails?) && last.id == id
    ensures Enabled(s, BodyReturns(id)) && Enabled(Next(s, BodyReturns(id)), Tick(t.completed))
    ensures Enabled(Next(Next(s, BodyReturns(id)), Tick(t.completed)), last)
    ensures s3 == Next(Next(Next(s, BodyReturns(id)), Tick(t.completed)), last)
    ensures s3.now == t.completed
    ensures s3.rows == if last.RecordCompleted? || last.applied then AfterCompleted(s.rows, call.key, t.completed, last.hash) else s.rows
    ensures s3.calls == s.calls[id := call.(phase := if last.RecordCompleted? then Done(ReturnedResult)
                                                     else if last.applied then Doubted else BodyThrew)]
    ensures Count(s3, BodyOk(call.key)) == Count(s, BodyOk(call.key)) + 1
  {
    hide Count, AfterCompleted, AfterClaim, AfterFailed, Claimable;
    var s1 := Next(s, BodyReturns(id));
    assert s1 == State(s.now, s.rows, s.calls[id := call.(phase := BodyReturned)], s.log + [BodyOk(call.key)]);
    var s2 := s1.(now := t.completed);
    assert s2 == Next(s1, Tick(t.completed));
    s3 := Next(s2, last);
    assert s3.calls == s.calls[id := s3.calls[id]];
    StepEmits(s, BodyReturns(id), BodyOk(call.key));
    CountIgnoresRest(s1, s2, BodyOk(call.key));
    StepEmits(s2, last, BodyOk(call.key));
  }

  /** Delivery and the sending of the claim. */
  lemma ArrivalRuns(s: State, id: nat, key: Key, tenant: Option<string>, lease: int, t: Times)
    requires id !in s.calls && s.now <= t.entered <= t.claimed
    ensures var steps := [Tick(t.entered), Deliver(id, key, tenant, lease), Tick(t.claimed)];
            && Possible(s, steps)
            && After(s, steps) == State(t.claimed, s.rows, s.calls[id := Call(key, tenant, t.entered + lease * 1000, Claiming)], s.log)
  {
    ThreeSteps(s, Tick(t.entered), Deliver(id, key, tenant, lease), Tick(t.claimed));
    hide Possible, After;
  }

  /** The claim and what follows it. */
  lemma ClaimRuns<T>(s: State, id: nat, call: Call, lease: int, t: Times, d: Deliveries, body: Body<T>, hashOf: T -> Option<string>)
    requires id in s.calls && s.calls[id] == call && call.phase.Claiming? && call.leaseUntil == t.entered + lease * 1000
    requires s.now == t.claimed && InOrder(t.entered, t, body)
    ensures var steps := ClaimSteps(s.rows, id, call.key, t, d, body, hashOf);
            var run := Invoke(s.rows, call.key, call.tenantId, lease, t, d, body, hashOf);
            Possible(s, steps) && Ended(s, After(s, steps), id, call, run.rows, VerdictOf(run.answer), run.bodyRan && body.Returns?)
  {
    hide AfterClaim, Count, Settle, BodySteps, Claimable, Possible, After;
    if !d.claim.Answered? {
      var step := ClaimFails(id, d.claim.Unanswered?);
      StepEmits(s, step, BodyOk(call.key));
      OneStep(s, step);
    } else {
      var step := Claim(id);
      var s1 := Next(s, step);
      StepEmits(s, step, BodyOk(call.key));
      if Claimable(s.rows, call.key, t.claimed) {
        WonRuns(s, id, call, lease, t, d, body, hashOf);
        SettleRan(s1.rows, call.key, t, d, body, hashOf);
      } else {
        var last := if d.look.Answered? then Look(id) else LookFails(id);
        StepEmits(s1, last, BodyOk(call.key));
        NotClaimed(s.rows, call.key, call.tenantId, call.leaseUntil, t.claimed);
        TwoSteps(s, step, last);
      }
    }
  }

  lemma SettleRan<T>(rows: Table, key: Key, t: Times, d: Deliveries, body: Body<T>, hashOf: T -> Option<string>)
    ensures Settle(rows, key, t, d, body, hashOf).bodyRan
  {
  }

  lemma NotClaimed(rows: Table, key: Key, tenant: Option<string>, leaseUntil: int, now: int)
    requires !Claimable(rows, key, now)
    ensures key in rows && AfterClaim(rows, key, tenant, leaseUntil, now) == rows
  {
  }

  lemma WonRuns<T>(s: State, id: nat, call: Call, lease: int, t: Times, d: Deliveries, body: Body<T>, hashOf: T -> Option<string>)
    requires id in s.calls && s.calls[id] == call && call.phase.Claiming? && call.leaseUntil == t.entered + lease * 1000
    requires s.now == t.claimed && InOrder(t.entered, t, body) && d.claim.Answered? && Claimable(s.rows, call.key, t.claimed)
    ensures var steps := ClaimSteps(s.rows, id, call.key, t, d, body, hashOf);
            var run := Invoke(s.rows, call.key, call.tenantId, lease, t, d, body, hashOf);
            Possible(s, steps) && Ended(s, After(s, steps), id, call, run.rows, VerdictOf(run.answer), body.Returns?)
  {
    hide AfterClaim, Count, Settle, BodySteps, Claimable, Possible, After;
    var step := Claim(id);
    var s1 := Next(s, step);
    StepEmits(s, step, BodyOk(call.key));
    BodyRuns(s1, id, s1.calls[id], t, d, body, hashOf);
    var rest := BodySteps(id, t, d, body, hashOf);
    assert ([step] + rest)[1..] == rest;
    Prepend(s, [step] + rest);
    hide Next, Enabled;
    EndedVia(s, s1, After(s1, rest), id, call, Settle(s1.rows, call.key, t, d, body, hashOf).rows,
             VerdictOf(Settle(s1.rows, call.key, t, d, body, hashOf).answer), body.Returns?);
  }

  lemma EndedVia(s: State, s1: State, end: State, id: nat, call: Call, rows: Table, verdict: Verdict, succeeded: bool)
    requires id in s1.calls && s1.calls == s.calls[id := s1.calls[id]] && s1.calls[id] == call.(phase := s1.calls[id].phase)
    requires Ended(s1, end, id, s1.calls[id], rows, verdict, succeeded) && Count(s1, BodyOk(call.key)) == Count(s, BodyOk(call.key))
    ensures Ended(s, end, id, call, rows, verdict, succeeded)
  {
    hide Count;
  }

  /**
   * Every call of `idempotent`, whatever fails, is a schedule of the workers' steps: possible from any state whose
   * ledger it finds and whose clock is not ahead of its readings, whatever all other workers hold; it leaves the same
   * rows, its verdict is the answer's, and it counts a success of the body exactly when the body ran and returned.
   */
  lemma CallIsASchedule<T>(s: State, id: nat, key: Key, tenant: Option<string>, lease: int, t: Times, d: Deliveries,
                           body: Body<T>, hashOf: T -> Option<string>)
    requires id !in s.calls && InOrder(s.now, t, body)
    ensures var steps := CallSteps(s.rows, id, key, tenant, lease, t, d, body, hashOf);
            var run := Invoke(s.rows, key, tenant, lease, t, d, body, hashOf);
            && Possible(s, steps)
            && Ended(s, After(s, steps), id, Call(key, tenant, t.entered + lease * 1000, Claiming), run.rows, VerdictOf(run.answer),
                     run.bodyRan && body.Returns?)
  {
    hide Possible, After, Next, Enabled, Invoke, Count, VerdictOf, ClaimSteps;
    ArrivalRuns(s, id, key, tenant, lease, t);
    var first := [Tick(t.entered), Deliver(id, key, tenant, lease), Tick(t.claimed)];
    var s1 := After(s, first);
    ClaimRuns(s1, id, s1.calls[id], lease, t, d, body, hashOf);
    RunsOn(s, first, ClaimSteps(s.rows, id, key, t, d, body, hashOf));
    CountIgnoresRest(s, s1, BodyOk(key));
  }

  lemma CountIgnoresRest(s: State, s1: State, e: Event)
    requires s1.log == s.log
    ensures Count(s1, e) == Count(s, e)
  {
  }
}
