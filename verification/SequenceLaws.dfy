/**
 What the steps of a sequence do to its enrollments, its queue rows and its record, said of
 the columns themselves.
 */
module SequenceLaws {
  import opened Queue
  import opened Sequences

  /** An enrollment with something due has a row under its key, waiting for that moment if it is new; no other row moves. */
  ghost predicate QueuedFor(queue: Rows, after: Rows, id: nat, e: Enrollment) {
    if e.status.Active? && e.nextRunAt.Some? then
      && after.Keys == queue.Keys + {StepKey(id, e.currentStep)}
      && (forall k | k in queue :: after[k] == queue[k])
      && (StepKey(id, e.currentStep) !in queue ==>
            after[StepKey(id, e.currentStep)] == Action(ActionStatus.Pending, e.nextRunAt.value, id))
    else after == queue
  }

  /** Only this enrollment's row is different. */
  predicate OnlyEnrollment(before: seq<Enrollment>, after: seq<Enrollment>, id: nat) {
    |after| == |before| && forall i | 0 <= i < |before| && i != id :: after[i] == before[i]
  }

  /** One enrollment is over: nothing due, and its waiting rows cancelled wherever they stand; nothing else is touched. */
  ghost predicate Stopped(w: World, t: World, id: nat)
    requires id < |w.enrollments|
  {
    && t == w.(enrollments := t.enrollments, queue := t.queue)
    && OnlyEnrollment(w.enrollments, t.enrollments, id)
    && t.enrollments[id] == Enrollment(w.enrollments[id].contact, w.enrollments[id].currentStep, None,
                                       w.enrollments[id].lastSentAt, Unsubscribed)
    && t.queue.Keys == w.queue.Keys
    && forall k | k in w.queue ::
         t.queue[k] == if k.enrollment == id && w.queue[k].status.Pending?
                       then Action(ActionStatus.Cancelled, w.queue[k].runAt, w.queue[k].target) else w.queue[k]
  }

  lemma RetireLaw(w: World, id: nat)
    requires id < |w.enrollments|
    ensures Stopped(w, Retire(w, id), id)
  {
  }

  lemma EnqueueLaw(queue: Rows, id: nat, e: Enrollment)
    ensures QueuedFor(queue, EnqueueStep(queue, id, e), id, e)
  {
  }

  /** Whether the sequence has a step at this position; they are numbered from 1. */
  predicate HasStep(w: World, position: nat) {
    1 <= position <= |w.steps|
  }

  /**
   One run of a step row: an enrollment whose contact is gone is stopped; one that is over, or
   stands at another step, is left alone; any other moves on one step, sent now, due `windowed`
   with its row queued, or completed when there is no further step.
   */
  ghost predicate Stepped(w: World, t: World, key: StepKey, runnable: bool, windowed: real) {
    if key.enrollment >= |w.enrollments| then t == w
    else
      var id, e := key.enrollment, w.enrollments[key.enrollment];
      if e.contact in w.gone then Stopped(w, t, id)
      else if e.status.Completed? || e.status.Unsubscribed? || key.position != e.currentStep then t == w
      else
        var more := HasStep(w, key.position + 1);
        && t == w.(enrollments := t.enrollments, queue := t.queue, log := t.log)
        && OnlyEnrollment(w.enrollments, t.enrollments, id)
        && t.enrollments[id] == Enrollment(e.contact, key.position + 1, if more then Some(windowed) else None, Some(w.clock),
                                           if more then Active else Completed)
        && QueuedFor(w.queue, t.queue, id, t.enrollments[id])
        && t.log == w.log + [Rung(id, key.position, w.clock, HasStep(w, key.position) && runnable,
                                  if more then Some(w.steps[key.position]) else None)]
  }

  lemma HandleLaw(w: World, key: StepKey, runnable: bool, windowed: real)
    ensures Stepped(w, HandleStep(w, key, runnable, windowed), key, runnable, windowed)
  {
    hide QueuedFor, EnqueueStep, Stopped;
    if key.enrollment < |w.enrollments| {
      RetireLaw(w, key.enrollment);
      var t := HandleStep(w, key, runnable, windowed);
      EnqueueLaw(w.queue, key.enrollment, t.enrollments[key.enrollment]);
    }
  }

  /** The sweep's turn at one enrollment: stopped if its contact is gone, queued if it has something due. */
  lemma SweepOneLaw(w: World, id: nat)
    requires id < |w.enrollments|
    ensures var t := SweepOne(w, id);
            if w.enrollments[id].contact in w.gone then Stopped(w, t, id)
            else t == w.(queue := t.queue) && QueuedFor(w.queue, t.queue, id, w.enrollments[id])
  {
    hide QueuedFor, EnqueueStep, Stopped;
    RetireLaw(w, id);
    EnqueueLaw(w.queue, id, w.enrollments[id]);
  }

  /** The contact has an active enrollment. */
  ghost predicate IsActive(w: World, contact: nat, id: nat) {
    id < |w.enrollments| && w.enrollments[id].contact == contact && w.enrollments[id].status.Active?
  }

  /** `c` is `w` with the contact's active enrollment stopped, if there is one. */
  ghost predicate ClearedFor(w: World, c: World, contact: nat) {
    if exists id: nat :: IsActive(w, contact, id) then exists id: nat :: IsActive(w, contact, id) && Stopped(w, c, id) else c == w
  }

  /** A new enrollment: at step 1, due `windowed` with its row queued; completed, with nothing due, without a first step. */
  ghost predicate Enrolled(c: World, t: World, contact: nat, windowed: real) {
    var n := |c.enrollments|;
    var first := HasStep(c, 1);
    && t == c.(enrollments := t.enrollments, queue := t.queue, log := t.log)
    && t.enrollments == c.enrollments + [Enrollment(contact, 1, if first then Some(windowed) else None, None,
                                                    if first then Active else Completed)]
    && QueuedFor(c.queue, t.queue, n, t.enrollments[n])
    && t.log == c.log + [Rung(n, 0, c.clock, false, if first then Some(c.steps[0]) else None)]
  }

  ghost predicate Subscribed(w: World, t: World, contact: nat, windowed: real) {
    exists c: World :: ClearedFor(w, c, contact) && Enrolled(c, t, contact, windowed)
  }

  lemma SubscribeLaw(w: World, contact: nat, windowed: real)
    ensures Subscribed(w, Subscribe(w, contact, windowed), contact, windowed)
  {
    hide QueuedFor, EnqueueStep, Stopped, CancelPendingSteps;
    var existing := ActiveOf(w.enrollments, contact);
    var c := if existing < |w.enrollments| then Retire(w, existing) else w;
    if existing < |w.enrollments| {
      RetireLaw(w, existing);
      assert IsActive(w, contact, existing);
    } else {
      assert forall id: nat | id < |w.enrollments| :: w.enrollments[id] in w.enrollments;
    }
    var t := Subscribe(w, contact, windowed);
    EnqueueLaw(c.queue, |c.enrollments|, t.enrollments[|c.enrollments|]);
    assert ClearedFor(w, c, contact) && Enrolled(c, t, contact, windowed);
  }

  // ------------------------------------------------------------------ the queue's own moves

  /** One queue row gets a new status and time. */
  ghost predicate RowMoved(queue: Rows, after: Rows, key: StepKey, status: ActionStatus, runAt: real)
    requires key in queue
  {
    after == queue[key := Action(status, runAt, queue[key].target)]
  }

  /**
   What the queue, its recovery and the operator do to a row: claimed it runs, recovered it
   waits again, exhausted it has failed, retried it waits for this moment; and a worker whose
   run failed puts its row back, or fails it, whatever the row has become, and lets go of it.
   */
  lemma QueueLaw(w: World, step: Step)
    requires Enabled(w, step)
    ensures var t := Next(w, step);
            match step
            case Claim(worker, key) =>
              && RowMoved(w.queue, t.queue, key, ActionStatus.Running, w.queue[key].runAt)
              && t == w.(queue := t.queue, workers := w.workers[worker := key])
            case Recover(key) =>
              RowMoved(w.queue, t.queue, key, ActionStatus.Pending, w.queue[key].runAt) && t == w.(queue := t.queue)
            case Exhaust(key) =>
              RowMoved(w.queue, t.queue, key, ActionStatus.Failed, w.queue[key].runAt) && t == w.(queue := t.queue)
            case RetryNow(key) =>
              RowMoved(w.queue, t.queue, key, ActionStatus.Pending, w.clock) && t == w.(queue := t.queue)
            case HandlerFail(worker, at, permanent) =>
              var key := w.workers[worker];
              && RowMoved(w.queue, t.queue, key, if permanent then ActionStatus.Failed else ActionStatus.Pending,
                          if permanent then w.queue[key].runAt else at)
              && t == w.(queue := t.queue, workers := w.workers - {worker})
            case DeleteContact(contact) =>
              && t == w.(queue := t.queue, gone := w.gone + {contact}) && t.queue.Keys == w.queue.Keys
              && forall k | k in w.queue ::
                   t.queue[k] == if k.enrollment < |w.enrollments| && w.enrollments[k.enrollment].contact == contact
                                    && w.queue[k].status.Pending?
                                 then Action(ActionStatus.Cancelled, w.queue[k].runAt, w.queue[k].target) else w.queue[k]
            case _ => true
  {
    hide HandleStep, Subscribe, SweepOne, Committed, CancelPendingSteps;
    if step.HandlerFail? { assert Freed(w.workers, step.worker) == w.workers - {step.worker}; }
  }
}
