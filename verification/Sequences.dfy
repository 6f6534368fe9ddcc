/**
 Enrollments walking the rungs of one sequence (apps/campaigns).  Step handlers and
 the sweep hold the enrollment's row lock from their read to their commit;
 `unsubscribe` is a plain read, then a blocking write, then a cancel, then a commit.
 A worker runs the queue row it claimed as it remembers it: recovery may have handed
 the row to somebody else, and a run may commit its work without the row showing it.
 */
module Sequences {
  import opened Queue

  datatype EnrollmentStatus = Active | Completed | Unsubscribed

  /** `currentStep` is the position of the step that runs next. */
  datatype Enrollment = Enrollment(
    contact: nat, currentStep: nat, nextRunAt: Option<real>, lastSentAt: Option<real>, status: EnrollmentStatus)

  /** `seq:<enrollment>:step:<position>`. */
  datatype StepKey = StepKey(enrollment: nat, position: nat)

  /** Who holds an enrollment's row lock. */
  datatype Holder = Handler(worker: nat) | Sweeper(worker: nat) | Leaver(request: nat)

  /** How far an `unsubscribe` transaction has got. */
  datatype Phase = HasRead(enrollment: nat) | Wrote(enrollment: nat) | Flushed(enrollment: nat)

  /**
   One entry of an enrollment's record: its joining, at position 0, or an advance from the
   position named; when, whether a flow started, and the delay of the step found behind it.
   */
  datatype Rung = Rung(enrollment: nat, position: nat, at: real, started: bool, delay: Option<real>)

  type Rows = map<StepKey, Action>

  datatype World = World(
    steps: seq<real>,
    enrollments: seq<Enrollment>,
    queue: Rows,
    gone: set<nat>,
    log: seq<Rung>,
    clock: real,
    locks: map<nat, Holder>,
    requests: map<nat, Phase>,
    workers: map<nat, StepKey>)

  // ------------------------------------------------------------------ scheduling

  /** `step_at`: the delay of the rung at a 1-based position. */
  function StepAt(steps: seq<real>, position: nat): Option<real> {
    if 1 <= position <= |steps| then Some(steps[position - 1]) else None
  }

  /** `enqueue_step`: nothing for an enrollment with nothing due, else insert-if-absent under its key. */
  function EnqueueStep(queue: Rows, id: nat, e: Enrollment): Rows {
    if e.status.Active? && e.nextRunAt.Some?
    then Enqueue(queue, StepKey(id, e.currentStep), e.nextRunAt.value, id)
    else queue
  }

  /** `cancel_pending_steps`: every pending row of the enrollment, whatever its position. */
  function CancelPendingSteps(queue: Rows, id: nat): Rows {
    map k | k in queue ::
      if k.enrollment == id && queue[k].status.Pending? then queue[k].(status := ActionStatus.Cancelled) else queue[k]
  }

  function Retired(e: Enrollment): Enrollment {
    e.(status := Unsubscribed, nextRunAt := None)
  }

  /** `_retire`. */
  function Retire(w: World, id: nat): World
    requires id < |w.enrollments|
  {
    w.(enrollments := w.enrollments[id := Retired(w.enrollments[id])], queue := CancelPendingSteps(w.queue, id))
  }

  // ------------------------------------------------------------------ the step handler

  /** `_advance`: the next rung, due `windowed` once moved into its send window. */
  function Advanced(e: Enrollment, following: Option<real>, now: real, windowed: real): Enrollment {
    e.(lastSentAt := Some(now),
       currentStep := e.currentStep + 1,
       status := if following.None? then Completed else e.status,
       nextRunAt := if following.None? then None else Some(windowed))
  }

  /** `handle_sequence_step`, with the enrollment's row lock held. `runnable` says whether the step's flow starts. */
  function HandleStep(w: World, key: StepKey, runnable: bool, windowed: real): World {
    if key.enrollment >= |w.enrollments| then w
    else
      var id, e := key.enrollment, w.enrollments[key.enrollment];
      if e.contact in w.gone then Retire(w, id)
      else if !e.status.Active? || key.position != e.currentStep then w
      else
        var following := StepAt(w.steps, e.currentStep + 1);
        var next := Advanced(e, following, w.clock, windowed);
        w.(enrollments := w.enrollments[id := next],
           queue := EnqueueStep(w.queue, id, next),
           log := w.log + [Rung(id, key.position, w.clock,
                                StepAt(w.steps, key.position).Some? && runnable, following)])
  }

  /** What the sweep does with one due enrollment it has locked. */
  function SweepOne(w: World, id: nat): World
    requires id < |w.enrollments|
  {
    if w.enrollments[id].contact in w.gone then Retire(w, id)
    else w.(queue := EnqueueStep(w.queue, id, w.enrollments[id]))
  }

  // ------------------------------------------------------------------ subscribing

  /** The active enrollment of a contact, or the table's length. */
  function ActiveOf(enrollments: seq<Enrollment>, contact: nat): (i: nat)
    ensures i <= |enrollments|
    ensures i < |enrollments| ==> enrollments[i].contact == contact && enrollments[i].status.Active?
    ensures i == |enrollments| ==> forall e | e in enrollments :: !(e.contact == contact && e.status.Active?)
  {
    if enrollments == [] then 0
    else if enrollments[0].contact == contact && enrollments[0].status.Active? then 0
    else 1 + ActiveOf(enrollments[1..], contact)
  }

  /** `subscribe`: retire whatever is active, then start a new enrollment at step 1. */
  function Subscribe(w: World, contact: nat, windowed: real): World {
    var existing := ActiveOf(w.enrollments, contact);
    var cleared := if existing < |w.enrollments| then Retire(w, existing) else w;
    var first := StepAt(w.steps, 1);
    var joined := Enrollment(contact, 1, if first.Some? then Some(windowed) else None, None,
                            if first.Some? then Active else Completed);
    cleared.(enrollments := cleared.enrollments + [joined],
             queue := EnqueueStep(cleared.queue, |cleared.enrollments|, joined),
             log := cleared.log + [Rung(|cleared.enrollments|, 0, w.clock, false, first)])
  }

  // ------------------------------------------------------------------ steps and runs

  /**
   `Recover` and `Exhaust` are zombie recovery, which looks at the row and not at who holds
   it; `RetryNow` is the operator's; `marked` is false for a run whose work commits while
   its row is left as it stands.
   */
  datatype Step =
    | Tick(to: real)
    | EditSteps(steps: seq<real>)
    | DeleteContact(contact: nat)
    | Claim(worker: nat, key: StepKey)
    | Recover(key: StepKey)
    | Exhaust(key: StepKey)
    | RetryNow(key: StepKey)
    | HandlerLock(worker: nat)
    | HandlerAbort(worker: nat)
    | HandlerFail(worker: nat, at: real, permanent: bool)
    | HandlerDie(worker: nat)
    | HandlerCommit(worker: nat, runnable: bool, windowed: real, marked: bool)
    | SweepLock(worker: nat, enrollment: nat)
    | SweepCommit(worker: nat, enrollment: nat)
    | DoSubscribe(contact: nat, windowed: real)
    | LeaveRead(request: nat, enrollment: nat)
    | LeaveWrite(request: nat)
    | LeaveCancel(request: nat)
    | LeaveCommit(request: nat)

  /** `into_window` moves a time forward only. */
  predicate Forward(w: World, position: nat, windowed: real) {
    var step := StepAt(w.steps, position);
    step.Some? ==> windowed >= w.clock + step.value
  }

  predicate Held(w: World, id: nat, holder: Holder) {
    id in w.locks && w.locks[id] == holder
  }

  /** The worker is running a row and has not taken its enrollment's lock, or has given it back. */
  predicate Idle(w: World, worker: nat) {
    worker in w.workers && !Held(w, w.workers[worker].enrollment, Handler(worker))
  }

  /** The worker is inside its handler, the enrollment locked. */
  predicate Inside(w: World, worker: nat) {
    worker in w.workers && Held(w, w.workers[worker].enrollment, Handler(worker))
  }

  predicate Enabled(w: World, step: Step) {
    match step
    case Tick(to) => to >= w.clock
    case EditSteps(_) => true
    case DeleteContact(_) => true
    case Claim(worker, key) =>
      worker !in w.workers && key in w.queue && w.queue[key].status.Pending? && w.queue[key].runAt <= w.clock
    case Recover(key) => key in w.queue && w.queue[key].status.Running?
    case Exhaust(key) => key in w.queue && w.queue[key].status.Running?
    case RetryNow(key) => key in w.queue && (w.queue[key].status.Failed? || w.queue[key].status.Pending?)
    case HandlerLock(worker) =>
      Idle(w, worker) && w.workers[worker].enrollment < |w.enrollments| && w.workers[worker].enrollment !in w.locks
    case HandlerAbort(worker) => Inside(w, worker)
    case HandlerFail(worker, at, _) => Idle(w, worker) && w.workers[worker] in w.queue && at >= w.clock
    case HandlerDie(worker) => Idle(w, worker)
    case HandlerCommit(worker, _, windowed, _) =>
      && Inside(w, worker) && w.workers[worker].enrollment < |w.enrollments|
      && Forward(w, w.enrollments[w.workers[worker].enrollment].currentStep + 1, windowed)
    case SweepLock(_, id) =>
      && id < |w.enrollments| && id !in w.locks && w.enrollments[id].status.Active?
      && w.enrollments[id].nextRunAt.Some? && w.enrollments[id].nextRunAt.value <= w.clock
    case SweepCommit(worker, id) => id < |w.enrollments| && Held(w, id, Sweeper(worker))
    case DoSubscribe(contact, windowed) =>
      ActiveOf(w.enrollments, contact) !in w.locks && Forward(w, 1, windowed)
    case LeaveRead(request, id) => request !in w.requests && id < |w.enrollments| && w.enrollments[id].status.Active?
    case LeaveWrite(request) =>
      request in w.requests && w.requests[request].HasRead? && w.requests[request].enrollment !in w.locks
    case LeaveCancel(request) => request in w.requests && w.requests[request].Wrote?
    case LeaveCommit(request) =>
      && request in w.requests && w.requests[request].Flushed?
      && w.requests[request].enrollment < |w.enrollments|
  }

  function Freed(workers: map<nat, StepKey>, worker: nat): map<nat, StepKey> {
    map v | v in workers && v != worker :: workers[v]
  }

  function Unlocked(locks: map<nat, Holder>, id: nat): map<nat, Holder> {
    map e | e in locks && e != id :: locks[e]
  }

  /** `_record_failure`: a blind write of what the worker made of it, whatever the row says by now. */
  function Failing(w: World, worker: nat, at: real, permanent: bool): World
    requires worker in w.workers && w.workers[worker] in w.queue
  {
    var key := w.workers[worker];
    var row := w.queue[key];
    w.(queue := w.queue[key := if permanent then row.(status := ActionStatus.Failed)
                               else row.(status := ActionStatus.Pending, runAt := at)],
       workers := Freed(w.workers, worker))
  }

  /** The handler's work is done: `_mark_done`, as blind, then the commit. */
  function Committed(h: World, worker: nat, key: StepKey, marked: bool): World {
    h.(queue := if marked && key in h.queue then Mark(h.queue, key, ActionStatus.Done) else h.queue,
       locks := Unlocked(h.locks, key.enrollment),
       workers := Freed(h.workers, worker))
  }

  function Next(w: World, step: Step): World
    requires Enabled(w, step)
  {
    match step
    case Tick(to) => w.(clock := to)
    case EditSteps(steps) => w.(steps := steps)
    case DeleteContact(contact) =>
      w.(gone := w.gone + {contact},
         queue := map k | k in w.queue ::
           if k.enrollment < |w.enrollments| && w.enrollments[k.enrollment].contact == contact && w.queue[k].status.Pending?
           then w.queue[k].(status := ActionStatus.Cancelled) else w.queue[k])
    case Claim(worker, key) =>
      w.(queue := Mark(w.queue, key, ActionStatus.Running), workers := w.workers[worker := key])
    case Recover(key) => w.(queue := Mark(w.queue, key, ActionStatus.Pending))
    case Exhaust(key) => w.(queue := Mark(w.queue, key, ActionStatus.Failed))
    case RetryNow(key) =>
      w.(queue := w.queue[key := w.queue[key].(status := ActionStatus.Pending, runAt := w.clock)])
    case HandlerLock(worker) => w.(locks := w.locks[w.workers[worker].enrollment := Handler(worker)])
    case HandlerAbort(worker) => w.(locks := Unlocked(w.locks, w.workers[worker].enrollment))
    case HandlerFail(worker, at, permanent) => Failing(w, worker, at, permanent)
    case HandlerDie(worker) => w.(workers := Freed(w.workers, worker))
    case HandlerCommit(worker, runnable, windowed, marked) =>
      var key := w.workers[worker];
      Committed(HandleStep(w, key, runnable, windowed), worker, key, marked)
    case SweepLock(worker, id) => w.(locks := w.locks[id := Sweeper(worker)])
    case SweepCommit(_, id) => SweepOne(w, id).(locks := Unlocked(w.locks, id))
    case DoSubscribe(contact, windowed) => Subscribe(w, contact, windowed)
    case LeaveRead(request, id) => w.(requests := w.requests[request := HasRead(id)])
    case LeaveWrite(request) =>
      var id := w.requests[request].enrollment;
      w.(requests := w.requests[request := Wrote(id)], locks := w.locks[id := Leaver(request)])
    case LeaveCancel(request) =>
      var id := w.requests[request].enrollment;
      w.(requests := w.requests[request := Flushed(id)], queue := CancelPendingSteps(w.queue, id))
    case LeaveCommit(request) =>
      var id := w.requests[request].enrollment;
      w.(requests := map r | r in w.requests && r != request :: w.requests[r],
         enrollments := w.enrollments[id := Retired(w.enrollments[id])],
         locks := Unlocked(w.locks, id))
  }

  predicate Legal(w: World, run: seq<Step>)
    decreases |run|
  {
    run == [] || (Enabled(w, run[0]) && Legal(Next(w, run[0]), run[1..]))
  }

  function Exec(w: World, run: seq<Step>): World
    requires Legal(w, run)
    decreases |run|
  {
    if run == [] then w else Exec(Next(w, run[0]), run[1..])
  }

  /** A sequence nobody has joined. */
  function Empty(steps: seq<real>, clock: real): World {
    World(steps, [], map[], {}, [], clock, map[], map[], map[])
  }
}
