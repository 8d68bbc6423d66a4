/**
 * The one thread that may touch the Saxon processor, and the queue that every call is marshalled onto
 * (apps/validator/src/validator/engine.py, lines 440-563): callers, shutdowns and the worker interleave
 * at each queue and flag access. `puts`, `taken`, `executed` and `trace` only record what has happened.
 */
module SaxonQueue {
  import opened Base

  const SHUT_DOWN := "engine has been shut down"

  datatype Answer = Returned(value: string) | Threw(error: string)

  /** Work to run on the thread. `early` is an exception raised before the processor is asked for. */
  datatype Work = Use(early: Option<string>, onProcessor: Answer) | Drop

  function Perform(work: Work, processor: bool): Answer {
    match work
    case Drop => Returned("None")
    case Use(early, onProcessor) =>
      if early.Some? then Threw(early.value) else if !processor then Threw(SHUT_DOWN) else onProcessor
  }

  predicate TouchesProcessor(work: Work, processor: bool) {
    work.Use? && work.early.None? && processor
  }

  datatype Item = Task(id: nat) | Marker

  /** Where one call of `_call` or `shutdown` stands. A shutdown starts at Entering, a plain call at Checking. */
  datatype Phase =
    | Entering               // shutdown: `_alive` is not read yet
    | Checking               // `_call`: `_alive` is not read yet
    | Ready                  // `_alive` was read as true; the task is not queued yet
    | Waiting                // the task is queued; waiting for its event
    | Answered(answer: Answer)
    | Refused                // raised because `_alive` was false
    | AlreadyDown            // shutdown returned at once because `_alive` was false
    | Dropped                // shutdown: the drop is done; `_alive` is not cleared yet
    | Retiring               // shutdown: `_alive` is cleared; the marker is not queued yet
    | Retired                // shutdown: the marker is queued

  datatype Call = Call(work: Work, phase: Phase)

  datatype Worker = Idle | Busy(id: nat) | Stopped

  datatype Event = Start(id: nat) | Touch(id: nat) | End(id: nat)

  datatype State = State(
    alive: bool, processor: bool, queue: seq<Item>, worker: Worker, calls: map<nat, Call>, answers: map<nat, Answer>,
    puts: seq<Item>, taken: seq<Item>, executed: seq<nat>, trace: seq<Event>)

  /** The engine as its constructor leaves it. */
  const INITIAL := State(true, true, [], Idle, map[], map[], [], [], [], [])

  datatype Step =
    | Submit(id: nat, work: Work)  // a new call
    | Shutdown(id: nat)            // a new shutdown
    | Enter(id: nat)               // shutdown reads `_alive`
    | Check(id: nat)               // `_call` reads `_alive`
    | Put(id: nat)
    | Resume(id: nat)              // the task's event is set
    | ClearAlive(id: nat)
    | Mark(id: nat)
    | Take                         // the worker gets the head of the queue
    | Finish                       // the task sets its event

  predicate InPhase(s: State, id: nat, phase: Phase) {
    id in s.calls && s.calls[id].phase == phase
  }

  predicate Enabled(s: State, step: Step) {
    match step
    case Submit(id, work) => id !in s.calls && work.Use?
    case Shutdown(id) => id !in s.calls
    case Enter(id) => InPhase(s, id, Entering)
    case Check(id) => InPhase(s, id, Checking)
    case Put(id) => InPhase(s, id, Ready)
    case Resume(id) => InPhase(s, id, Waiting) && id in s.answers
    case ClearAlive(id) => InPhase(s, id, Dropped)
    case Mark(id) => InPhase(s, id, Retiring)
    case Take => s.worker.Idle? && s.queue != []
    case Finish => s.worker.Busy? && s.worker.id in s.calls
  }

  function Move(s: State, id: nat, phase: Phase): State
    requires id in s.calls
  {
    s.(calls := s.calls[id := s.calls[id].(phase := phase)])
  }

  function Enqueue(s: State, item: Item): State {
    s.(queue := s.queue + [item], puts := s.puts + [item])
  }

  function Taken(s: State): State
    requires s.queue != []
  {
    var s' := s.(queue := s.queue[1..], taken := s.taken + [s.queue[0]]);
    match s.queue[0]
    case Marker => s'.(worker := Stopped)
    case Task(id) => s'.(worker := Busy(id), trace := s.trace + [Start(id)])
  }

  function Finished(s: State, id: nat): State
    requires id in s.calls
  {
    var work := s.calls[id].work;
    s.(worker := Idle, processor := s.processor && !work.Drop?, answers := s.answers[id := Perform(work, s.processor)],
       executed := s.executed + [id],
       trace := s.trace + (if TouchesProcessor(work, s.processor) then [Touch(id)] else []) + [End(id)])
  }

  function Next(s: State, step: Step): State
    requires Enabled(s, step)
  {
    match step
    case Submit(id, work) => s.(calls := s.calls[id := Call(work, Checking)])
    case Shutdown(id) => s.(calls := s.calls[id := Call(Drop, Entering)])
    case Enter(id) => Move(s, id, if s.alive then Checking else AlreadyDown)
    case Check(id) => Move(s, id, if s.alive then Ready else Refused)
    case Put(id) => Enqueue(Move(s, id, Waiting), Task(id))
    case Resume(id) => Move(s, id, if s.calls[id].work.Drop? then Dropped else Answered(s.answers[id]))
    case ClearAlive(id) => Move(s, id, Retiring).(alive := false)
    case Mark(id) => Enqueue(Move(s, id, Retired), Marker)
    case Take => Taken(s)
    case Finish => Finished(s, s.worker.id)
  }

  predicate Possible(s: State, steps: seq<Step>)
    decreases steps
  {
    steps == [] || (Enabled(s, steps[0]) && Possible(Next(s, steps[0]), steps[1..]))
  }

  function After(s: State, steps: seq<Step>): State
    requires Possible(s, steps)
    decreases steps
  {
    if steps == [] then s else After(Next(s, steps[0]), steps[1..])
  }

  // ---------- What every step keeps ----------

  /** The ids of the tasks queued before the first shutdown marker, in queue order. */
  function BeforeMarker(items: seq<Item>): seq<nat> {
    if items == [] || items[0].Marker? then [] else [items[0].id] + BeforeMarker(items[1..])
  }

  lemma {:induction false} BeforeMarkerAppend(items: seq<Item>, item: Item)
    ensures BeforeMarker(items + [item])
            == BeforeMarker(items) + if Marker in items || item.Marker? then [] else [item.id]
  {
    if items == [] {
    } else {
      assert (items + [item])[1..] == items[1..] + [item];
      if items[0].Task? {
        BeforeMarkerAppend(items[1..], item);
        assert Marker in items <==> Marker in items[1..];
      }
    }
  }

  lemma {:induction false} BeforeMarkerConcat(a: seq<Item>, b: seq<Item>)
    ensures BeforeMarker(a + b) == if Marker in a then BeforeMarker(a) else BeforeMarker(a) + BeforeMarker(b)
  {
    if a == [] {
      assert a + b == b;
    } else {
      assert (a + b)[1..] == a[1..] + b;
      if a[0].Task? {
        BeforeMarkerConcat(a[1..], b);
        assert Marker in a <==> Marker in a[1..];
      }
    }
  }

  lemma {:induction false} BeforeMarkerMembers(items: seq<Item>, id: nat)
    requires id in BeforeMarker(items)
    ensures Task(id) in items
  {
    if id != items[0].id {
      BeforeMarkerMembers(items[1..], id);
    }
  }

  function InHand(w: Worker): seq<nat> {
    if w.Busy? then [w.id] else []
  }

  /** The queue is first in, first out, and the worker reads no further than the first marker. */
  ghost predicate Fifo(s: State) {
    && s.puts == s.taken + s.queue
    && (s.worker.Stopped? <==> Marker in s.taken)
    && BeforeMarker(s.taken) == s.executed + InHand(s.worker)
  }

  predicate Queued(phase: Phase) {
    phase.Waiting? || phase.Answered? || phase.Dropped? || phase.Retiring? || phase.Retired?
  }

  /** A call has queued its task exactly when its phase says so. */
  ghost predicate TaskQueued(s: State, id: nat) {
    Task(id) in s.puts <==> id in s.calls && Queued(s.calls[id].phase)
  }

  ghost predicate Once(items: seq<Item>) {
    forall i, j :: 0 <= i < j < |items| && items[i].Task? ==> items[i] != items[j]
  }

  /** No task that drops the processor has run before position k. */
  ghost predicate OpenBefore(s: State, k: nat)
    requires k <= |s.executed|
  {
    forall h :: 0 <= h < k ==> s.executed[h] in s.calls && !s.calls[s.executed[h]].work.Drop?
  }

  /** The k-th task run was answered by its own work, on the processor as long as no earlier task had dropped it. */
  ghost predicate AnsweredAt(s: State, k: nat)
    requires k < |s.executed|
  {
    var id := s.executed[k];
    id in s.calls && id in s.answers && s.answers[id] == Perform(s.calls[id].work, OpenBefore(s, k))
  }

  ghost predicate Answers(s: State) {
    && (forall id :: id in s.answers <==> id in s.executed)
    && (forall k :: 0 <= k < |s.executed| ==> AnsweredAt(s, k))
    && (s.processor <==> OpenBefore(s, |s.executed|))
  }

  /** What a call's phase tells about the engine. */
  ghost predicate PhaseOk(s: State, id: nat) {
    id in s.calls ==>
      var c := s.calls[id];
      && (c.phase.Answered? ==> id in s.answers && c.phase.answer == s.answers[id])
      && (c.phase.Entering? || c.phase.Dropped? || c.phase.Retiring? || c.phase.Retired? ==> c.work.Drop?)
      && (c.phase.Dropped? || c.phase.Retiring? || c.phase.Retired? ==> id in s.answers && !s.processor)
      && (c.phase.Retiring? || c.phase.Retired? ==> !s.alive)
  }

  ghost predicate MarkedDown(s: State) {
    Marker in s.puts ==> !s.alive && !s.processor
  }

  ghost predicate Inv(s: State) {
    && Fifo(s)
    && Once(s.puts)
    && Answers(s)
    && MarkedDown(s)
    && (forall id :: TaskQueued(s, id))
    && (forall id :: PhaseOk(s, id))
  }

  lemma ShiftOne(taken: seq<Item>, queue: seq<Item>)
    requires queue != []
    ensures (taken + [queue[0]]) + queue[1..] == taken + queue
  {
  }

  lemma TakenKeepsFifo(s: State)
    requires Fifo(s) && s.worker.Idle? && s.queue != []
    ensures Fifo(Taken(s))
  {
    BeforeMarkerAppend(s.taken, s.queue[0]);
    ShiftOne(s.taken, s.queue);
    hide BeforeMarker;
  }

  lemma EnqueueKeepsFifo(s: State, item: Item)
    requires Fifo(s)
    ensures Fifo(Enqueue(s, item))
  {
    hide BeforeMarker;
    assert s.taken + (s.queue + [item]) == (s.taken + s.queue) + [item];
  }

  lemma FinishedKeepsFifo(s: State)
    requires Fifo(s) && s.worker.Busy? && s.worker.id in s.calls
    ensures Fifo(Finished(s, s.worker.id))
  {
    hide BeforeMarker, Perform, TouchesProcessor;
    var s' := Finished(s, s.worker.id);
    assert s'.executed + [] == s'.executed;
  }

  lemma StepKeepsFifo(s: State, step: Step)
    requires Fifo(s) && Enabled(s, step)
    ensures Fifo(Next(s, step))
  {
    match step {
      case Take => TakenKeepsFifo(s);
      case Put(id) => EnqueueKeepsFifo(Move(s, id, Waiting), Task(id));
      case Mark(id) => EnqueueKeepsFifo(Move(s, id, Retired), Marker);
      case Finish => FinishedKeepsFifo(s);
      case _ =>
    }
    hide BeforeMarker, Perform;
  }

  lemma StepKeepsTasks(s: State, step: Step)
    requires Once(s.puts) && (forall id :: TaskQueued(s, id)) && Enabled(s, step)
    ensures Once(Next(s, step).puts)
    ensures forall id :: TaskQueued(Next(s, step), id)
  {
    hide Perform, TouchesProcessor;
    var s' := Next(s, step);
    if step.Put? {
      assert TaskQueued(s, step.id);
      assert s'.puts == s.puts + [Task(step.id)];
    }
    forall id ensures TaskQueued(s', id) {
      assert TaskQueued(s, id);
    }
  }

  predicate SameWork(s: State, s': State) {
    forall id :: id in s.calls ==> id in s'.calls && s'.calls[id].work == s.calls[id].work
  }

  lemma RunTasksAreKnown(s: State)
    requires Answers(s)
    ensures forall k :: 0 <= k < |s.executed| ==> s.executed[k] in s.calls && s.executed[k] in s.answers
  {
    forall k | 0 <= k < |s.executed| ensures s.executed[k] in s.calls && s.executed[k] in s.answers {
      assert AnsweredAt(s, k);
    }
  }

  lemma OpenStays(s: State, s': State, k: nat)
    requires SameWork(s, s') && k <= |s.executed| && s.executed <= s'.executed
    requires forall h :: 0 <= h < |s.executed| ==> s.executed[h] in s.calls
    ensures OpenBefore(s', k) <==> OpenBefore(s, k)
  {
  }

  lemma AnsweredStays(s: State, s': State, k: nat)
    requires SameWork(s, s') && k < |s.executed| && s.executed <= s'.executed
    requires forall h :: 0 <= h < |s.executed| ==> s.executed[h] in s.calls
    requires AnsweredAt(s, k) && s.executed[k] in s'.answers
    requires s'.answers[s.executed[k]] == s.answers[s.executed[k]]
    ensures AnsweredAt(s', k)
  {
    OpenStays(s, s', k);
    hide OpenBefore, Perform;
  }

  /** The task in hand has not run before. */
  lemma FreshTask(s: State)
    requires Fifo(s) && Once(s.puts) && s.worker.Busy?
    ensures s.worker.id !in s.executed
  {
    assert forall i :: 0 <= i < |s.taken| ==> s.puts[i] == s.taken[i];
    OnceBeforeMarker(s.taken);
    var ids := BeforeMarker(s.taken);
    assert ids[|s.executed|] == s.worker.id && forall k :: 0 <= k < |s.executed| ==> ids[k] == s.executed[k];
  }

  lemma {:induction false} OnceBeforeMarker(items: seq<Item>)
    requires Once(items)
    ensures forall i, j :: 0 <= i < j < |BeforeMarker(items)| ==> BeforeMarker(items)[i] != BeforeMarker(items)[j]
  {
    if items != [] && items[0].Task? {
      OnceBeforeMarker(items[1..]);
      if items[0].id in BeforeMarker(items[1..]) {
        BeforeMarkerMembers(items[1..], items[0].id);
      }
    }
  }

  lemma FinishKeepsAnswers(s: State, id: nat)
    requires Answers(s) && id in s.calls && id !in s.executed
    ensures Answers(Finished(s, id))
  {
    var s' := Finished(s, id);
    var n := |s.executed|;
    RunTasksAreKnown(s);
    OpenStays(s, s', n);
    assert s'.executed[n] == id;
    assert s'.processor <==> OpenBefore(s', n + 1);
    assert AnsweredAt(s', n);
    hide Perform, OpenBefore, AnsweredAt;
    forall k | 0 <= k < n ensures AnsweredAt(s', k) {
      AnsweredStays(s, s', k);
    }
  }

  lemma OnlyFinishAnswers(s: State, step: Step)
    requires Enabled(s, step) && !step.Finish?
    ensures var s' := Next(s, step);
            SameWork(s, s') && s'.executed == s.executed && s'.answers == s.answers && s'.processor == s.processor
  {
  }

  lemma SameAnswers(s: State, s': State)
    requires Answers(s) && SameWork(s, s')
    requires s'.executed == s.executed && s'.answers == s.answers && s'.processor == s.processor
    ensures Answers(s')
  {
    RunTasksAreKnown(s);
    OpenStays(s, s', |s.executed|);
    hide Perform, OpenBefore, AnsweredAt, SameWork;
    forall k | 0 <= k < |s.executed| ensures AnsweredAt(s', k) {
      AnsweredStays(s, s', k);
    }
  }

  lemma StepKeepsAnswers(s: State, step: Step)
    requires Fifo(s) && Once(s.puts) && Answers(s) && Enabled(s, step)
    ensures Answers(Next(s, step))
  {
    if step.Finish? {
      FreshTask(s);
      FinishKeepsAnswers(s, s.worker.id);
    } else {
      OnlyFinishAnswers(s, step);
      SameAnswers(s, Next(s, step));
    }
  }

  lemma DropIsDone(s: State, id: nat)
    requires Answers(s) && id in s.answers && id in s.calls && s.calls[id].work.Drop?
    ensures !s.processor
  {
    var k :| 0 <= k < |s.executed| && s.executed[k] == id;
  }

  lemma AnswersStay(s: State, step: Step)
    requires Fifo(s) && Once(s.puts) && Answers(s) && Enabled(s, step)
    ensures forall id :: id in s.answers ==> id in Next(s, step).answers && Next(s, step).answers[id] == s.answers[id]
  {
    if step.Finish? {
      FreshTask(s);
    } else {
      OnlyFinishAnswers(s, step);
    }
    hide Fifo, Once;
  }

  lemma StepKeepsPhase(s: State, step: Step, id: nat)
    requires Fifo(s) && Once(s.puts) && Answers(s) && PhaseOk(s, id) && Enabled(s, step)
    ensures PhaseOk(Next(s, step), id)
  {
    AnswersStay(s, step);
    if step.Resume? && s.calls[step.id].work.Drop? {
      DropIsDone(s, step.id);
    }
    hide Fifo, Once, Answers, Perform;
  }

  lemma StepKeepsMarkedDown(s: State, step: Step)
    requires MarkedDown(s) && (forall id :: PhaseOk(s, id)) && Enabled(s, step)
    ensures MarkedDown(Next(s, step))
  {
    if step.Mark? {
      assert PhaseOk(s, step.id);
    }
    hide PhaseOk, Perform;
  }

  lemma StepKeepsInv(s: State, step: Step)
    requires Inv(s) && Enabled(s, step)
    ensures Inv(Next(s, step))
  {
    StepKeepsFifo(s, step);
    StepKeepsTasks(s, step);
    StepKeepsAnswers(s, step);
    StepKeepsMarkedDown(s, step);
    forall id ensures PhaseOk(Next(s, step), id) {
      StepKeepsPhase(s, step, id);
    }
  }

  lemma {:induction false} RunKeepsInv(s: State, steps: seq<Step>)
    requires Inv(s) && Possible(s, steps)
    ensures Inv(After(s, steps))
    decreases steps
  {
    if steps != [] {
      StepKeepsInv(s, steps[0]);
      RunKeepsInv(Next(s, steps[0]), steps[1..]);
    }
  }

  lemma InitialIsOk()
    ensures Inv(INITIAL)
  {
  }

  // ---------- Over every run ----------

  /**
   * Tasks run exactly once and in queue order: what has run, with the task in hand, is a prefix without
   * repetition of what was queued before the first shutdown marker, and all of it once the worker has stopped.
   */
  lemma RunsInOrderOnce(steps: seq<Step>)
    requires Possible(INITIAL, steps)
    ensures var s := After(INITIAL, steps);
            && s.executed + InHand(s.worker) <= BeforeMarker(s.puts)
            && (forall i, j :: 0 <= i < j < |BeforeMarker(s.puts)| ==> BeforeMarker(s.puts)[i] != BeforeMarker(s.puts)[j])
            && (s.worker.Stopped? ==> s.executed == BeforeMarker(s.puts))
  {
    InitialIsOk();
    RunKeepsInv(INITIAL, steps);
    var s := After(INITIAL, steps);
    BeforeMarkerConcat(s.taken, s.queue);
    OnceBeforeMarker(s.puts);
  }

  /**
   * A call that returns gets the answer of its own work, run on the thread at some position of the
   * order, with the processor there exactly when no earlier task had dropped it.
   */
  lemma CallerGetsOwnAnswer(steps: seq<Step>, id: nat)
    requires Possible(INITIAL, steps)
    requires id in After(INITIAL, steps).calls && After(INITIAL, steps).calls[id].phase.Answered?
    ensures var s := After(INITIAL, steps);
            exists k :: 0 <= k < |s.executed| && s.executed[k] == id
                        && s.calls[id].phase.answer == Perform(s.calls[id].work, OpenBefore(s, k))
  {
    InitialIsOk();
    RunKeepsInv(INITIAL, steps);
    var s := After(INITIAL, steps);
    assert PhaseOk(s, id);
    var k :| 0 <= k < |s.executed| && s.executed[k] == id;
    assert AnsweredAt(s, k);
  }

  /**
   * What a returning call answers: its own early error, else its processor's answer when no task before it had dropped
   * the processor, and the shutdown error when one had.
   */
  lemma ReturningCallAnswers(steps: seq<Step>, id: nat) returns (k: nat)
    requires Possible(INITIAL, steps)
    requires id in After(INITIAL, steps).calls && After(INITIAL, steps).calls[id].phase.Answered?
    ensures var s := After(INITIAL, steps); var call := s.calls[id];
            && k < |s.executed| && s.executed[k] == id
            && (call.work.Use? ==>
                  && (call.work.early.Some? ==> call.phase.answer == Threw(call.work.early.value))
                  && (call.work.early.None? && OpenBefore(s, k) ==> call.phase.answer == call.work.onProcessor)
                  && (call.work.early.None? && !OpenBefore(s, k) ==> call.phase.answer == Threw(SHUT_DOWN)))
  {
    CallerGetsOwnAnswer(steps, id);
    var s := After(INITIAL, steps);
    k :| 0 <= k < |s.executed| && s.executed[k] == id && s.calls[id].phase.answer == Perform(s.calls[id].work, OpenBefore(s, k));
    hide OpenBefore, Possible, After;
  }

  /** The marker is queued, and the worker stops, only after the drop has run on the thread itself. */
  lemma StopsOnlyAfterTheDrop(steps: seq<Step>)
    requires Possible(INITIAL, steps)
    ensures var s := After(INITIAL, steps);
            Marker in s.puts || s.worker.Stopped? ==>
              !s.alive && !s.processor && exists id :: id in s.executed && id in s.calls && s.calls[id].work.Drop?
  {
    InitialIsOk();
    RunKeepsInv(INITIAL, steps);
    var s := After(INITIAL, steps);
    RunTasksAreKnown(s);
    if Marker in s.puts || s.worker.Stopped? {
      var k :| 0 <= k < |s.executed| && !(s.executed[k] in s.calls && !s.calls[s.executed[k]].work.Drop?);
      assert s.executed[k] in s.executed;
    }
  }

  /** What the thread does for the k-th task run. */
  ghost function EventsOf(s: State, k: nat): seq<Event>
    requires k < |s.executed| && s.executed[k] in s.calls
  {
    var id := s.executed[k];
    [Start(id)] + (if TouchesProcessor(s.calls[id].work, OpenBefore(s, k)) then [Touch(id)] else []) + [End(id)]
  }

  ghost function EventsBefore(s: State, k: nat): seq<Event>
    requires k <= |s.executed| && forall h :: 0 <= h < |s.executed| ==> s.executed[h] in s.calls
  {
    if k == 0 then [] else EventsBefore(s, k - 1) + EventsOf(s, k - 1)
  }

  function Begun(w: Worker): seq<Event> {
    if w.Busy? then [Start(w.id)] else []
  }

  ghost predicate Traced(s: State) {
    && (forall k :: 0 <= k < |s.executed| ==> s.executed[k] in s.calls)
    && s.trace == EventsBefore(s, |s.executed|) + Begun(s.worker)
  }

  lemma {:induction false} EventsStay(s: State, s': State, k: nat)
    requires SameWork(s, s') && k <= |s.executed| && s.executed <= s'.executed
    requires forall h :: 0 <= h < |s.executed| ==> s.executed[h] in s.calls
    requires forall h :: 0 <= h < |s'.executed| ==> s'.executed[h] in s'.calls
    ensures EventsBefore(s', k) == EventsBefore(s, k)
  {
    if k > 0 {
      EventsStay(s, s', k - 1);
      OpenStays(s, s', k - 1);
      hide OpenBefore;
      assert s'.executed[k - 1] == s.executed[k - 1];
    }
  }

  lemma OnlyWorkerTraces(s: State, step: Step)
    requires Enabled(s, step) && !step.Finish?
    ensures Next(s, step).trace + Begun(s.worker) == s.trace + Begun(Next(s, step).worker)
  {
  }

  lemma FinishKeepsTrace(s: State, id: nat)
    requires Answers(s) && Traced(s) && id in s.calls && s.worker == Busy(id)
    ensures Traced(Finished(s, id))
  {
    var s', n := Finished(s, id), |s.executed|;
    assert s'.executed[n] == id;
    EventsStay(s, s', n);
    OpenStays(s, s', n);
    hide OpenBefore, SameWork;
    var touched := if TouchesProcessor(s.calls[id].work, s.processor) then [Touch(id)] else [];
    Regroup(EventsBefore(s, n), [Start(id)], touched, [End(id)]);
  }

  lemma StepKeepsTrace(s: State, step: Step)
    requires Answers(s) && Traced(s) && Enabled(s, step)
    ensures Traced(Next(s, step))
  {
    if step.Finish? {
      FinishKeepsTrace(s, s.worker.id);
    } else {
      OnlyFinishAnswers(s, step);
      OnlyWorkerTraces(s, step);
      EventsStay(s, Next(s, step), |s.executed|);
      hide Next, EventsBefore, Answers;
    }
  }

  lemma Regroup(a: seq<Event>, b: seq<Event>, c: seq<Event>, d: seq<Event>)
    ensures (a + b) + c + d == a + (b + c + d)
  {
  }

  lemma {:induction false} RunKeepsTrace(s: State, steps: seq<Step>)
    requires Inv(s) && Traced(s) && Possible(s, steps)
    ensures Traced(After(s, steps))
    decreases steps
  {
    if steps != [] {
      StepKeepsInv(s, steps[0]);
      StepKeepsTrace(s, steps[0]);
      RunKeepsTrace(Next(s, steps[0]), steps[1..]);
    }
  }

  /**
   * One task at a time, and no processor use after the drop: the thread's history is, task by task in
   * the order run, a start, a use of the processor only if no earlier task dropped it, and an end.
   */
  lemma OneTaskAtATime(steps: seq<Step>)
    requires Possible(INITIAL, steps)
    ensures Traced(After(INITIAL, steps))
  {
    InitialIsOk();
    RunKeepsTrace(INITIAL, steps);
  }

  // ---------- Who waits for ever ----------

  /** The call waits for a task that was queued after the first marker. */
  ghost predicate Stranded(s: State, id: nat) {
    InPhase(s, id, Waiting) && id !in BeforeMarker(s.puts)
  }

  lemma {:induction false} AllBeforeMarker(items: seq<Item>, id: nat)
    requires Task(id) in items && Marker !in items
    ensures id in BeforeMarker(items)
  {
    if items[0] != Task(id) {
      assert Task(id) in items[1..] && Marker !in items[1..];
      AllBeforeMarker(items[1..], id);
    } else {
      assert BeforeMarker(items)[0] == id;
    }
  }

  lemma StrandedHasMarker(s: State, id: nat)
    requires Inv(s) && Stranded(s, id)
    ensures Marker in s.puts && id !in s.answers
  {
    assert TaskQueued(s, id);
    if Marker !in s.puts {
      AllBeforeMarker(s.puts, id);
    }
    BeforeMarkerConcat(s.taken, s.queue);
    assert forall k :: 0 <= k < |s.executed| ==> BeforeMarker(s.puts)[k] == s.executed[k];
  }

  lemma {:induction false} StrandedForever(s: State, steps: seq<Step>, id: nat)
    requires Inv(s) && Stranded(s, id) && Possible(s, steps)
    ensures Stranded(After(s, steps), id)
    decreases steps
  {
    if steps != [] {
      var s' := Next(s, steps[0]);
      StepKeepsInv(s, steps[0]);
      StrandedHasMarker(s, id);
      PutsStay(s, steps[0]);
      assert Stranded(s', id);
      StrandedForever(s', steps[1..], id);
    }
  }

  /** Once a marker is queued, later puts do not change what precedes it. */
  lemma PutsStay(s: State, step: Step)
    requires Enabled(s, step) && Marker in s.puts
    ensures BeforeMarker(Next(s, step).puts) == BeforeMarker(s.puts)
  {
    if step.Put? {
      BeforeMarkerAppend(s.puts, Task(step.id));
    } else if step.Mark? {
      BeforeMarkerAppend(s.puts, Marker);
    }
  }

  /** The worker runs on until the task is answered. */
  lemma {:induction false} WorkerReaches(s: State, id: nat) returns (steps: seq<Step>)
    requires Inv(s) && InPhase(s, id, Waiting) && !Stranded(s, id)
    ensures Possible(s, steps) && InPhase(After(s, steps), id, Waiting) && id in After(s, steps).answers
    ensures After(s, steps).calls == s.calls
    decreases |s.queue|, if s.worker.Busy? then 1 else 0
  {
    if id in s.answers {
      return [];
    }
    BeforeMarkerConcat(s.taken, s.queue);
    var step := if s.worker.Busy? then Finish else Take;
    if s.worker.Busy? {
      BusyTaskIsKnown(s);
    } else {
      MoreToDo(s, id);
    }
    StepKeepsInv(s, step);
    var rest := WorkerReaches(Next(s, step), id);
    steps := [step] + rest;
    assert steps[1..] == rest;
  }

  lemma BusyTaskIsKnown(s: State)
    requires Inv(s) && s.worker.Busy?
    ensures s.worker.id in s.calls
  {
    BeforeMarkerMembers(s.taken, s.worker.id) by {
      assert BeforeMarker(s.taken)[|s.executed|] == s.worker.id;
    }
    assert TaskQueued(s, s.worker.id);
  }

  lemma MoreToDo(s: State, id: nat)
    requires Inv(s) && id in BeforeMarker(s.puts) && id !in s.answers && !s.worker.Busy?
    ensures s.worker.Idle? && s.queue != []
  {
    BeforeMarkerConcat(s.taken, s.queue);
    assert s.taken + [] == s.taken;
  }

  /**
   * A waiting call can still return exactly when its task was queued before the first marker; queued
   * later, it waits for ever whatever happens next.
   */
  lemma WaitsForeverExactlyAfterTheMarker(steps: seq<Step>, id: nat)
    requires Possible(INITIAL, steps) && InPhase(After(INITIAL, steps), id, Waiting)
    ensures var s := After(INITIAL, steps);
            (exists more :: Possible(s, more) && !InPhase(After(s, more), id, Waiting)) <==> id in BeforeMarker(s.puts)
  {
    InitialIsOk();
    RunKeepsInv(INITIAL, steps);
    hide Inv, BeforeMarker, Possible, After;
    var s := After(INITIAL, steps);
    if id in BeforeMarker(s.puts) {
      ReachesItsAnswer(s, id);
    } else {
      forall more | Possible(s, more) ensures InPhase(After(s, more), id, Waiting) {
        StrandedForever(s, more, id);
      }
    }
  }

  lemma ReachesItsAnswer(s: State, id: nat)
    requires Inv(s) && InPhase(s, id, Waiting) && id in BeforeMarker(s.puts)
    ensures exists more :: Possible(s, more) && !InPhase(After(s, more), id, Waiting)
  {
    var reached := WorkerReaches(s, id);
    hide Inv, BeforeMarker;
    var s' := After(s, reached);
    OneStep(s', Resume(id));
    hide Possible, After;
    Concatenated(s, reached, [Resume(id)]);
  }

  lemma OneStep(s: State, step: Step)
    requires Enabled(s, step)
    ensures Possible(s, [step]) && After(s, [step]) == Next(s, step)
  {
    hide Enabled, Next;
    assert [step][0] == step && [step][1..] == [];
    assert After(Next(s, step), []) == Next(s, step);
  }

  lemma {:induction false} Concatenated(s: State, a: seq<Step>, b: seq<Step>)
    requires Possible(s, a) && Possible(After(s, a), b)
    ensures Possible(s, a + b) && After(s, a + b) == After(After(s, a), b)
    decreases a
  {
    if a == [] {
      assert a + b == b;
    } else {
      assert (a + b)[1..] == a[1..] + b && (a + b)[0] == a[0];
      Concatenated(Next(s, a[0]), a[1..], b);
    }
  }

  /** No call stands between its read of `_alive` and its put. */
  ghost predicate NoneReady(s: State) {
    forall id :: id in s.calls ==> !s.calls[id].phase.Ready?
  }

  /** Every marker of the run was queued while no call stood between its read of `_alive` and its put. */
  predicate QuietMarks(s: State, steps: seq<Step>)
    requires Possible(s, steps)
    decreases steps
  {
    steps == [] ||
    ((steps[0].Mark? ==> forall id :: id in s.calls ==> !s.calls[id].phase.Ready?)
     && QuietMarks(Next(s, steps[0]), steps[1..]))
  }

  lemma StepLeavesNoneReady(s: State, step: Step)
    requires Inv(s) && Enabled(s, step) && (Marker in s.puts || step.Mark? ==> NoneReady(s))
    ensures Marker in Next(s, step).puts ==> NoneReady(Next(s, step))
  {
    hide Fifo, Once, Answers, TaskQueued, PhaseOk;
  }

  lemma StepStrandsNobody(s: State, step: Step, id: nat)
    requires Inv(s) && Enabled(s, step) && (Marker in s.puts || step.Mark? ==> NoneReady(s))
    requires !Stranded(s, id)
    ensures !Stranded(Next(s, step), id)
  {
    hide Fifo, Once, Answers, TaskQueued, PhaseOk;
    if step.Put? {
      assert Marker !in s.puts;
      BeforeMarkerAppend(s.puts, Task(step.id));
      var before := BeforeMarker(s.puts);
      assert (before + [step.id])[|before|] == step.id;
    } else if step.Mark? {
      BeforeMarkerAppend(s.puts, Marker);
    }
  }

  lemma {:induction false} NobodyStranded(s: State, steps: seq<Step>)
    requires Inv(s) && Possible(s, steps) && QuietMarks(s, steps)
    requires Marker in s.puts ==> NoneReady(s)
    requires forall id :: !Stranded(s, id)
    ensures forall id :: !Stranded(After(s, steps), id)
    decreases steps
  {
    if steps != [] {
      var s' := Next(s, steps[0]);
      StepKeepsInv(s, steps[0]);
      StepLeavesNoneReady(s, steps[0]);
      forall id ensures !Stranded(s', id) {
        assert !Stranded(s, id);
        StepStrandsNobody(s, steps[0], id);
      }
      hide Inv, Stranded, NoneReady, Enabled, Next;
      NobodyStranded(s', steps[1..]);
    }
  }

  /** When markers are queued only in quiet moments, no call ever waits for ever. */
  lemma QuietShutdownStrandsNobody(steps: seq<Step>, id: nat)
    requires Possible(INITIAL, steps) && QuietMarks(INITIAL, steps) && InPhase(After(INITIAL, steps), id, Waiting)
    ensures var s := After(INITIAL, steps); exists more :: Possible(s, more) && !InPhase(After(s, more), id, Waiting)
  {
    InitialIsOk();
    NobodyStranded(INITIAL, steps);
    assert !Stranded(After(INITIAL, steps), id);
    WaitsForeverExactlyAfterTheMarker(steps, id);
  }

  /** And a call that still stands there when a marker is queued waits for ever as soon as it puts its task. */
  lemma ReadyAtMarkerIsStranded(steps: seq<Step>, id: nat)
    requires Possible(INITIAL, steps)
    requires Marker in After(INITIAL, steps).puts && InPhase(After(INITIAL, steps), id, Ready)
    ensures var s := After(INITIAL, steps); Enabled(s, Put(id)) && Stranded(Next(s, Put(id)), id)
  {
    InitialIsOk();
    RunKeepsInv(INITIAL, steps);
    var s := After(INITIAL, steps);
    PutsStay(s, Put(id));
    assert TaskQueued(s, id);
    if id in BeforeMarker(s.puts) {
      BeforeMarkerMembers(s.puts, id);
    }
  }

  lemma OneMore(steps: seq<Step>, step: Step)
    requires Possible(INITIAL, steps) && Enabled(After(INITIAL, steps), step)
    ensures Possible(INITIAL, steps + [step])
    ensures After(INITIAL, steps + [step]) == Next(After(INITIAL, steps), step)
  {
    Concatenated(INITIAL, steps, [step]);
  }

  const WORK := Use(None, Returned("findings"))

  /** Call 1 has read `_alive`; the drop of shutdown 2 is queued. */
  const OVERTAKING := State(
    true, true, [Task(2)], Idle, map[1 := Call(WORK, Ready), 2 := Call(Drop, Waiting)], map[], [Task(2)], [], [], [])

  lemma ReachOvertaking() returns (steps: seq<Step>)
    ensures Possible(INITIAL, steps) && After(INITIAL, steps) == OVERTAKING
  {
    steps := [];
    assert Possible(INITIAL, steps) && After(INITIAL, steps) == INITIAL;
    hide Possible, After;
    OneMore(steps, Submit(1, WORK));
    steps := steps + [Submit(1, WORK)];
    OneMore(steps, Check(1));
    steps := steps + [Check(1)];
    OneMore(steps, Shutdown(2));
    steps := steps + [Shutdown(2)];
    OneMore(steps, Enter(2));
    steps := steps + [Enter(2)];
    OneMore(steps, Check(2));
    steps := steps + [Check(2)];
    OneMore(steps, Put(2));
    steps := steps + [Put(2)];
    assert [] + [Task(2)] == [Task(2)];
  }

  /** Such a call exists: it reads `_alive` first, and a whole shutdown passes before it queues its task. */
  lemma ShutdownCanOvertakeACall() returns (steps: seq<Step>)
    ensures Possible(INITIAL, steps)
    ensures Marker in After(INITIAL, steps).puts && InPhase(After(INITIAL, steps), 1, Ready)
  {
    steps := ReachOvertaking();
    hide Possible, After;
    OneMore(steps, Take);
    steps := steps + [Take];
    OneMore(steps, Finish);
    steps := steps + [Finish];
    OneMore(steps, Resume(2));
    steps := steps + [Resume(2)];
    OneMore(steps, ClearAlive(2));
    steps := steps + [ClearAlive(2)];
    OneMore(steps, Mark(2));
    steps := steps + [Mark(2)];
  }

  // ---------- The engine itself ----------

  class SchematronEngine {
    var alive: bool
    var processor: bool
    var queue: seq<Item>
    var worker: Worker
    var calls: map<nat, Call>
    var answers: map<nat, Answer>
    ghost var puts: seq<Item>
    ghost var taken: seq<Item>
    ghost var executed: seq<nat>
    ghost var trace: seq<Event>

    ghost function Now(): State
      reads this
    {
      State(alive, processor, queue, worker, calls, answers, puts, taken, executed, trace)
    }

    constructor ()
      ensures Now() == INITIAL
    {
      alive, processor, queue, worker, calls, answers := true, true, [], Idle, map[], map[];
      puts, taken, executed, trace := [], [], [], [];
    }

    /** `self._queue.get()` on the thread. */
    method Get()
      requires Enabled(Now(), Take)
      modifies this
      ensures Now() == Next(old(Now()), Take)
    {
      var head := queue[0];
      queue, taken := queue[1..], taken + [head];
      match head
      case Marker => worker := Stopped;
      case Task(id) => worker, trace := Busy(id), trace + [Start(id)];
    }

    /** `task()`: the work, its result or exception, and the event. */
    method RunTask()
      requires Enabled(Now(), Finish)
      modifies this
      ensures Now() == Next(old(Now()), Finish)
    {
      var id := worker.id;
      var work := calls[id].work;
      answers := answers[id := Perform(work, processor)];
      trace := trace + (if TouchesProcessor(work, processor) then [Touch(id)] else []) + [End(id)];
      executed := executed + [id];
      processor := processor && !work.Drop?;
      worker := Idle;
    }

    /** `_run`, up to the point where it would wait for the queue or has returned. */
    method Run() returns (ghost steps: seq<Step>)
      requires Inv(Now())
      modifies this
      ensures Possible(old(Now()), steps) && Now() == After(old(Now()), steps)
      ensures calls == old(calls) && puts == old(puts) && alive == old(alive)
      ensures worker.Stopped? || (worker.Idle? && queue == [])
    {
      steps := [];
      while worker.Busy? || (worker.Idle? && queue != [])
        invariant Inv(Now()) && Possible(old(Now()), steps) && Now() == After(old(Now()), steps)
        invariant calls == old(calls) && puts == old(puts) && alive == old(alive)
        decreases |queue|, if worker.Busy? then 1 else 0
      {
        ghost var s := Now();
        if worker.Busy? {
          BusyTaskIsKnown(s);
          StepKeepsInv(s, Finish);
          Concatenated(old(Now()), steps, [Finish]);
          RunTask();
          steps := steps + [Finish];
        } else {
          StepKeepsInv(s, Take);
          Concatenated(old(Now()), steps, [Take]);
          Get();
          steps := steps + [Take];
        }
        hide *;
      }
    }

    /** The first half of `_call`: the `_alive` check and the put. */
    method Submit(id: nat, work: Work) returns (queued: bool)
      requires Inv(Now()) && id !in calls && work.Use?
      modifies this
      ensures Inv(Now()) && queued == alive == old(alive) && executed == old(executed)
      ensures queued ==> puts == old(puts) + [Task(id)] && InPhase(Now(), id, Waiting) && calls[id].work == work
      ensures !queued ==> puts == old(puts) && InPhase(Now(), id, Refused)
    {
      ghost var entered := Next(old(Now()), Step.Submit(id, work));
      StepKeepsInv(old(Now()), Step.Submit(id, work));
      StepKeepsInv(entered, Check(id));
      hide Inv;
      queued := alive;
      if !alive {
        calls := calls[id := Call(work, Checking)][id := Call(work, Refused)];
        return;
      }
      calls := calls[id := Call(work, Checking)][id := Call(work, Ready)];
      StepKeepsInv(Now(), Put(id));
      calls, queue, puts := calls[id := Call(work, Waiting)], queue + [Task(id)], puts + [Task(id)];
    }

    /**
     * `_call` with no other caller in between: refused once the engine is down; otherwise the task runs
     * after everything queued before it, and its own answer comes back.
     */
    method Invoke(id: nat, work: Work) returns (answer: Answer)
      requires Inv(Now()) && id !in calls && work.Use?
      modifies this
      ensures Inv(Now())
      ensures !old(alive) ==> answer == Threw(SHUT_DOWN) && puts == old(puts) && executed == old(executed)
      ensures old(alive) ==> puts == old(puts) + [Task(id)] && executed == BeforeMarker(old(puts)) + [id]
      ensures old(alive) ==> answer == Perform(work, processor)
    {
      var queued := Submit(id, work);
      if !queued {
        return Threw(SHUT_DOWN);
      }
      ghost var waiting := Now();
      assert Marker !in puts;
      BeforeMarkerAppend(old(puts), Task(id));
      ghost var steps := Run();
      RunKeepsInv(waiting, steps);
      ghost var s := Now();
      BeforeMarkerConcat(taken, queue);
      assert taken + [] == taken;
      LastAnswer(s, BeforeMarker(old(puts)), id);
      answer := answers[id];
      StepKeepsInv(s, Resume(id));
      hide Inv;
      calls := calls[id := Call(work, Answered(answer))];
    }
  }

  lemma LastAnswer(s: State, before: seq<nat>, id: nat)
    requires Answers(s) && s.executed == before + [id] && id in s.calls && s.calls[id].work.Use?
    ensures id in s.answers && s.answers[id] == Perform(s.calls[id].work, s.processor)
  {
    assert s.executed[|before|] == id;
    assert AnsweredAt(s, |before|);
    assert OpenBefore(s, |before| + 1) <==> OpenBefore(s, |before|);
  }
}
