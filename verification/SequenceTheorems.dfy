/** What holds of every enrollment over every interleaving of handlers, sweeps, edits and unsubscribes. */
module SequenceTheorems {
  import opened Queue
  import opened Sequences

  // ------------------------------------------------------------------ one active enrollment

  ghost predicate OneActive(w: World) {
    forall i, j | 0 <= i < j < |w.enrollments| && w.enrollments[i].status.Active? && w.enrollments[j].status.Active? ::
      w.enrollments[i].contact != w.enrollments[j].contact
  }

  /** Queue rows name known enrollments and positions already reached; a worker's row is in the queue. */
  ghost predicate RowsInRange(w: World) {
    && (forall k | k in w.queue :: k.enrollment < |w.enrollments| && k.position <= w.enrollments[k.enrollment].currentStep)
    && (forall v | v in w.workers :: w.workers[v] in w.queue)
  }

  /** A request that has written holds its row's lock until it commits. */
  ghost predicate WritersHoldLocks(w: World) {
    forall r | r in w.requests ::
      && w.requests[r].enrollment < |w.enrollments|
      && (!w.requests[r].HasRead? ==> Held(w, w.requests[r].enrollment, Leaver(r)))
  }

  /** How many advances one enrollment has made; its joining is not one. */
  function Advances(log: seq<Rung>, id: nat): nat {
    if log == [] then 0
    else
      var last := log[|log| - 1];
      Advances(log[..|log| - 1], id) + if last.enrollment == id && last.position > 0 then 1 else 0
  }

  /** The record of one enrollment is its joining and its positions 1, 2, ... up to the one it stands on. */
  ghost predicate LogInOrder(w: World) {
    && (forall i | 0 <= i < |w.log| ::
          && w.log[i].enrollment < |w.enrollments|
          && w.log[i].position < w.enrollments[w.log[i].enrollment].currentStep)
    && (forall i, j | 0 <= i < j < |w.log| && w.log[i].enrollment == w.log[j].enrollment ::
          w.log[i].position < w.log[j].position)
    && (forall id | 0 <= id < |w.enrollments| ::
          Advances(w.log, id) + 1 == w.enrollments[id].currentStep && Joined(w.log, id))
  }

  /** The enrollment's joining is on record. */
  ghost predicate Joined(log: seq<Rung>, id: nat) {
    exists i :: 0 <= i < |log| && log[i].enrollment == id && log[i].position == 0
  }

  /** A rung runs no earlier than the one before it, or the joining, plus the delay found then. */
  ghost predicate DelaysKept(log: seq<Rung>) {
    forall i, j | 0 <= i < j < |log| && log[i].enrollment == log[j].enrollment && log[j].position == log[i].position + 1 ::
      log[i].delay.Some? && log[j].at >= log[i].at + log[i].delay.value
  }

  /** Nothing runs the enrollment's current rung before `t`: not its row, not a worker that already has it. */
  ghost predicate NotBefore(w: World, id: nat, t: real)
    requires id < |w.enrollments|
  {
    var e := w.enrollments[id];
    var key := StepKey(id, e.currentStep);
    && e.nextRunAt.Some? && e.nextRunAt.value >= t
    && (key in w.queue ==> w.queue[key].runAt >= t)
    && (forall v | v in w.workers && w.workers[v] == key :: w.clock >= t)
  }

  /** What the current rung of an active enrollment has to wait for. */
  ghost predicate WaitsFor(w: World, i: nat)
    requires i < |w.log| && w.log[i].enrollment < |w.enrollments|
  {
    var e := w.enrollments[w.log[i].enrollment];
    e.status.Active? && w.log[i].position + 1 == e.currentStep ==>
      w.log[i].delay.Some? && NotBefore(w, w.log[i].enrollment, w.log[i].at + w.log[i].delay.value)
  }

  ghost predicate Waiting(w: World) {
    forall i | 0 <= i < |w.log| && w.log[i].enrollment < |w.enrollments| :: WaitsFor(w, i)
  }

  /** What every step keeps. */
  ghost predicate Inv(w: World) {
    OneActive(w) && RowsInRange(w) && WritersHoldLocks(w) && LogInOrder(w)
  }

  /** What every step keeps besides, but for an operator's "retry now" on a rung still waiting. */
  ghost predicate Unhurried(w: World) {
    DelaysKept(w.log) && Waiting(w)
  }

  // ------------------------------------------------------------------ preservation

  lemma AdvanceCounts(log: seq<Rung>, r: Rung, id: nat)
    ensures Advances(log + [r], id) == Advances(log, id) + if r.enrollment == id && r.position > 0 then 1 else 0
    ensures Joined(log, id) || (r.enrollment == id && r.position == 0) ==> Joined(log + [r], id)
  {
    assert (log + [r])[..|log|] == log;
    if i :| 0 <= i < |log| && log[i].enrollment == id && log[i].position == 0 { assert (log + [r])[i] == log[i]; }
    assert (log + [r])[|log|] == r;
  }

  lemma RetireKeeps(w: World, id: nat)
    requires Inv(w) && id < |w.enrollments|
    ensures Inv(Retire(w, id)) && (Unhurried(w) ==> Unhurried(Retire(w, id)))
  {
    var t := Retire(w, id);
    assert forall i | 0 <= i < |w.enrollments| :: t.enrollments[i].currentStep == w.enrollments[i].currentStep;
    if Unhurried(w) {
      forall i | 0 <= i < |t.log| && t.log[i].enrollment < |t.enrollments| ensures WaitsFor(t, i) {
        assert WaitsFor(w, i);
      }
    }
  }

  /** A run is at the rung its enrollment stands on, and so advances it. */
  predicate AtCurrentRung(w: World, key: StepKey) {
    && key.enrollment < |w.enrollments|
    && w.enrollments[key.enrollment].status.Active? && key.position == w.enrollments[key.enrollment].currentStep
    && w.enrollments[key.enrollment].contact !in w.gone
  }

  lemma AdvanceLog(w: World, key: StepKey, runnable: bool, windowed: real)
    requires Inv(w) && AtCurrentRung(w, key)
    ensures LogInOrder(HandleStep(w, key, runnable, windowed))
  {
    hide EnqueueStep;
    var t := HandleStep(w, key, runnable, windowed);
    var r := t.log[|w.log|];
    assert t.log == w.log + [r];
    hide Joined;
    forall i | 0 <= i < |t.enrollments| ensures Advances(t.log, i) + 1 == t.enrollments[i].currentStep && Joined(t.log, i) {
      AdvanceCounts(w.log, r, i);
    }
  }

  lemma AdvanceKeeps(w: World, key: StepKey, runnable: bool, windowed: real)
    requires Inv(w) && AtCurrentRung(w, key)
    ensures Inv(HandleStep(w, key, runnable, windowed))
  {
    hide LogInOrder, Advances, Joined, StepAt;
    AdvanceLog(w, key, runnable, windowed);
  }

  /** A worker at the current rung has waited as long as the last rung asked. */
  lemma AdvanceOnTime(w: World, worker: nat, key: StepKey, runnable: bool, windowed: real)
    requires Inv(w) && Unhurried(w) && worker in w.workers && w.workers[worker] == key && AtCurrentRung(w, key)
    ensures DelaysKept(HandleStep(w, key, runnable, windowed).log)
  {
    hide EnqueueStep;
    var t := HandleStep(w, key, runnable, windowed);
    var r := t.log[|w.log|];
    assert t.log == w.log + [r];
    forall i | 0 <= i < |w.log| && w.log[i].enrollment == key.enrollment && r.position == w.log[i].position + 1
      ensures w.log[i].delay.Some? && r.at >= w.log[i].at + w.log[i].delay.value
    {
      assert WaitsFor(w, i);
    }
  }

  lemma AdvanceWaits(w: World, key: StepKey, runnable: bool, windowed: real)
    requires Inv(w) && Unhurried(w) && AtCurrentRung(w, key)
    requires Forward(w, w.enrollments[key.enrollment].currentStep + 1, windowed)
    ensures Waiting(HandleStep(w, key, runnable, windowed))
  {
    var t := HandleStep(w, key, runnable, windowed);
    var id := key.enrollment;
    forall i | 0 <= i < |t.log| && t.log[i].enrollment < |t.enrollments| ensures WaitsFor(t, i) {
      assert StepKey(id, w.enrollments[id].currentStep + 1) !in w.queue;
      if i < |w.log| {
        assert t.log[i] == w.log[i];
        assert WaitsFor(w, i);
      }
    }
  }

  /** A step that leaves rungs and log alone, and adds no row past a current step. */
  lemma QuietKeeps(w: World, t: World)
    requires Inv(w)
    requires t.log == w.log && |t.enrollments| == |w.enrollments|
    requires forall i | 0 <= i < |w.enrollments| ::
               && t.enrollments[i].contact == w.enrollments[i].contact
               && t.enrollments[i].currentStep == w.enrollments[i].currentStep
               && (t.enrollments[i].status.Active? ==> t.enrollments[i] == w.enrollments[i])
    requires forall k | k in t.queue && k !in w.queue ::
               k.enrollment < |w.enrollments| && k.position == w.enrollments[k.enrollment].currentStep
    requires forall k | k in w.queue :: k in t.queue
    requires forall v | v in t.workers :: t.workers[v] in t.queue
    requires WritersHoldLocks(t)
    ensures Inv(t)
  {
  }

  /** One due time, moved by a step of the queue: kept, set for the first time, or set by a worker that had the row. */
  ghost predicate DueLater(w: World, t: World, k: StepKey)
    requires k in t.queue
  {
    || (k in w.queue && t.queue[k].runAt >= w.queue[k].runAt)
    || (k !in w.queue && k.enrollment < |w.enrollments| && w.enrollments[k.enrollment].nextRunAt == Some(t.queue[k].runAt))
    || (t.queue[k].runAt >= w.clock && exists v :: v in w.workers && w.workers[v] == k)
  }

  /** A step that hurries nobody: due times only move back, and a worker takes up only rows that are due. */
  lemma QuietWaits(w: World, t: World)
    requires Unhurried(w)
    requires t.log == w.log && |t.enrollments| == |w.enrollments| && t.clock >= w.clock
    requires forall i | 0 <= i < |w.enrollments| && t.enrollments[i].status.Active? :: t.enrollments[i] == w.enrollments[i]
    requires forall k | k in t.queue :: DueLater(w, t, k)
    requires forall v | v in t.workers ::
               || (v in w.workers && t.workers[v] == w.workers[v])
               || (t.workers[v] in w.queue && w.queue[t.workers[v]].runAt <= w.clock)
    ensures Unhurried(t)
  {
    forall i | 0 <= i < |t.log| && t.log[i].enrollment < |t.enrollments| ensures WaitsFor(t, i) {
      assert WaitsFor(w, i);
    }
  }

  lemma SubscribeKeeps(w: World, contact: nat, windowed: real)
    requires Inv(w) && ActiveOf(w.enrollments, contact) !in w.locks && Forward(w, 1, windowed)
    ensures Inv(Subscribe(w, contact, windowed)) && (Unhurried(w) ==> Unhurried(Subscribe(w, contact, windowed)))
  {
    var existing := ActiveOf(w.enrollments, contact);
    var c := if existing < |w.enrollments| then Retire(w, existing) else w;
    if existing < |w.enrollments| { RetireKeeps(w, existing); }
    NobodyActive(w, contact);
    var t := Subscribe(w, contact, windowed);
    JoinKeeps(c, t, t.enrollments[|c.enrollments|], StepAt(w.steps, 1));
  }

  lemma NobodyActive(w: World, contact: nat)
    requires OneActive(w)
    ensures var existing := ActiveOf(w.enrollments, contact);
            var c := if existing < |w.enrollments| then Retire(w, existing) else w;
            forall i | 0 <= i < |c.enrollments| && c.enrollments[i].status.Active? :: c.enrollments[i].contact != contact
  {
    var existing := ActiveOf(w.enrollments, contact);
    if existing == |w.enrollments| {
      assert forall i | 0 <= i < |w.enrollments| :: w.enrollments[i] in w.enrollments;
    }
  }

  lemma {:induction false} NoAdvancesYet(log: seq<Rung>, id: nat)
    requires forall i | 0 <= i < |log| :: log[i].enrollment != id
    ensures Advances(log, id) == 0
  {
    if log != [] { NoAdvancesYet(log[..|log| - 1], id); }
  }

  /** A new enrollment at step 1, with its joining on record and a row for step 1 if it is active. */
  ghost predicate Joins(c: World, t: World, joined: Enrollment, first: Option<real>) {
    && joined.currentStep == 1
    && (joined.status.Active? ==> first.Some? && joined.nextRunAt.Some? && joined.nextRunAt.value >= c.clock + first.value)
    && t == c.(enrollments := c.enrollments + [joined], queue := EnqueueStep(c.queue, |c.enrollments|, joined),
               log := c.log + [Rung(|c.enrollments|, 0, c.clock, false, first)])
  }

  lemma JoinKeeps(c: World, t: World, joined: Enrollment, first: Option<real>)
    requires Inv(c) && Joins(c, t, joined, first)
    requires forall i | 0 <= i < |c.enrollments| && c.enrollments[i].status.Active? :: c.enrollments[i].contact != joined.contact
    ensures Inv(t) && (Unhurried(c) ==> Unhurried(t))
  {
    JoinLog(c, t, joined, first);
    if Unhurried(c) {
      JoinWaits(c, t, joined, first);
      JoinOnTime(c, t, joined, first);
    }
    assert OneActive(t) && WritersHoldLocks(t);
  }

  lemma JoinLog(c: World, t: World, joined: Enrollment, first: Option<real>)
    requires LogInOrder(c) && Joins(c, t, joined, first)
    ensures LogInOrder(t)
  {
    hide Joined, EnqueueStep;
    NoAdvancesYet(c.log, |c.enrollments|);
    forall id | 0 <= id < |t.enrollments| ensures Advances(t.log, id) + 1 == t.enrollments[id].currentStep && Joined(t.log, id) {
      AdvanceCounts(c.log, t.log[|c.log|], id);
      if id < |c.enrollments| { assert t.enrollments[id] == c.enrollments[id]; }
    }
  }

  /** Nothing advances by joining. */
  lemma JoinOnTime(c: World, t: World, joined: Enrollment, first: Option<real>)
    requires DelaysKept(c.log) && Joins(c, t, joined, first)
    ensures DelaysKept(t.log)
  {
    hide EnqueueStep;
  }

  lemma JoinWaits(c: World, t: World, joined: Enrollment, first: Option<real>)
    requires LogInOrder(c) && RowsInRange(c) && Waiting(c) && Joins(c, t, joined, first)
    ensures Waiting(t)
  {
    forall i | 0 <= i < |t.log| && t.log[i].enrollment < |t.enrollments| ensures WaitsFor(t, i) {
      assert StepKey(|c.enrollments|, 1) !in c.queue;
      if i < |c.log| {
        assert t.log[i] == c.log[i] && WaitsFor(c, i);
        assert t.enrollments[c.log[i].enrollment] == c.enrollments[c.log[i].enrollment];
      }
    }
  }

  /** One handler's work, whichever rung its row is for. */
  lemma HandleKeeps(w: World, key: StepKey, runnable: bool, windowed: real)
    requires Inv(w) && key in w.queue
    ensures var t := HandleStep(w, key, runnable, windowed);
            Inv(t) && t.locks == w.locks && t.workers == w.workers && t.requests == w.requests && key in t.queue
  {
    if w.enrollments[key.enrollment].contact in w.gone {
      RetireKeeps(w, key.enrollment);
    } else if AtCurrentRung(w, key) {
      AdvanceKeeps(w, key, runnable, windowed);
    }
    hide Inv;
  }

  lemma HandleOnTime(w: World, worker: nat, key: StepKey, runnable: bool, windowed: real)
    requires Inv(w) && Unhurried(w) && worker in w.workers && w.workers[worker] == key
    requires key.enrollment < |w.enrollments| && Forward(w, w.enrollments[key.enrollment].currentStep + 1, windowed)
    ensures Unhurried(HandleStep(w, key, runnable, windowed))
  {
    if w.enrollments[key.enrollment].contact in w.gone {
      RetireKeeps(w, key.enrollment);
    } else if AtCurrentRung(w, key) {
      AdvanceOnTime(w, worker, key, runnable, windowed);
      AdvanceWaits(w, key, runnable, windowed);
    }
    hide Inv, Waiting, DelaysKept;
  }

  /** Giving back a lock no request holds, and marking the row, keep everything. */
  lemma CommittedKeeps(h: World, worker: nat, key: StepKey, marked: bool)
    requires Inv(h) && Held(h, key.enrollment, Handler(worker))
    ensures Inv(Committed(h, worker, key, marked))
    ensures Unhurried(h) ==> Unhurried(Committed(h, worker, key, marked))
  {
    hide LogInOrder, OneActive, DelaysKept;
    var t := Committed(h, worker, key, marked);
    assert t.queue.Keys == h.queue.Keys;
    QuietKeeps(h, t);
    if Unhurried(h) { QuietWaits(h, t); }
  }

  lemma CommitIs(w: World, step: Step)
    requires Enabled(w, step) && step.HandlerCommit?
    ensures step.worker in w.workers && Inside(w, step.worker) && w.workers[step.worker].enrollment < |w.enrollments|
    ensures Forward(w, w.enrollments[w.workers[step.worker].enrollment].currentStep + 1, step.windowed)
    ensures Next(w, step) ==
            Committed(HandleStep(w, w.workers[step.worker], step.runnable, step.windowed), step.worker,
                      w.workers[step.worker], step.marked)
  {
    hide HandleStep, Committed, Forward;
  }

  lemma WorkersRow(w: World, worker: nat)
    requires Inv(w) && Inside(w, worker)
    ensures w.workers[worker] in w.queue && Held(w, w.workers[worker].enrollment, Handler(worker))
  {
  }

  lemma CommitKeeps(w: World, step: Step)
    requires Inv(w) && Enabled(w, step) && step.HandlerCommit?
    ensures Inv(Next(w, step)) && (Unhurried(w) ==> Unhurried(Next(w, step)))
  {
    hide *;
    CommitIs(w, step);
    WorkersRow(w, step.worker);
    var key := w.workers[step.worker];
    HandleKeeps(w, key, step.runnable, step.windowed);
    if Unhurried(w) { HandleOnTime(w, step.worker, key, step.runnable, step.windowed); }
    var h := HandleStep(w, key, step.runnable, step.windowed);
    SameLocks(w, h, key.enrollment, Handler(step.worker));
    CommittedKeeps(h, step.worker, key, step.marked);
  }

  lemma SameLocks(w: World, t: World, id: nat, holder: Holder)
    requires t.locks == w.locks
    ensures Held(t, id, holder) == Held(w, id, holder)
  {
  }

  /** What the sweep does with one enrollment it has locked, and the lock given back. */
  lemma SweepOneKeeps(w: World, id: nat)
    requires Inv(w) && id < |w.enrollments|
    ensures Inv(SweepOne(w, id)) && (Unhurried(w) ==> Unhurried(SweepOne(w, id)))
  {
    if w.enrollments[id].contact in w.gone {
      RetireKeeps(w, id);
    } else {
      QuietKeeps(w, SweepOne(w, id));
      if Unhurried(w) { QuietWaits(w, SweepOne(w, id)); }
    }
  }

  lemma SweepKeeps(w: World, step: Step)
    requires Inv(w) && Enabled(w, step) && step.SweepCommit?
    ensures Inv(Next(w, step)) && (Unhurried(w) ==> Unhurried(Next(w, step)))
  {
    hide OneActive, LogInOrder, WaitsFor, EnqueueStep, CancelPendingSteps;
    var SweepCommit(worker, id) := step;
    SweepOneKeeps(w, id);
    var t := SweepOne(w, id);
    QuietKeeps(t, Next(w, step));
    if Unhurried(w) { QuietWaits(t, Next(w, step)); }
  }

  /** The queue's, the clock's and the editor's steps. */
  predicate QueueStep(step: Step) {
    step.Tick? || step.EditSteps? || step.DeleteContact? || step.Claim? || step.Recover? || step.Exhaust?
    || step.RetryNow? || step.HandlerFail? || step.HandlerDie?
  }

  lemma QueueStepKeeps(w: World, step: Step)
    requires Inv(w) && Enabled(w, step) && QueueStep(step)
    ensures Inv(Next(w, step))
  {
    hide OneActive, LogInOrder;
    assert Next(w, step).queue.Keys == w.queue.Keys;
    QuietKeeps(w, Next(w, step));
  }

  lemma QueueStepWaits(w: World, step: Step)
    requires Unhurried(w) && Enabled(w, step) && QueueStep(step) && !step.RetryNow?
    ensures Unhurried(Next(w, step))
  {
    assert Next(w, step).queue.Keys == w.queue.Keys;
    QuietWaits(w, Next(w, step));
  }

  /** The rung `i` of the log is the one before `key`, and its delay is not over yet. */
  predicate StillWaits(w: World, i: nat, key: StepKey)
    requires i < |w.log|
  {
    var r := w.log[i];
    && r.enrollment == key.enrollment < |w.enrollments| && r.position + 1 == key.position
    && w.enrollments[key.enrollment].status.Active? && w.enrollments[key.enrollment].currentStep == key.position
    && r.delay.Some? && w.clock < r.at + r.delay.value
  }

  /** "Retry now" on the row of a rung whose delay is not over yet. */
  ghost predicate Undercuts(w: World, step: Step) {
    step.RetryNow? && exists i :: 0 <= i < |w.log| && StillWaits(w, i, step.key)
  }

  /** "Retry now" lets a rung run before its time exactly when its delay is not over yet. */
  lemma RetryNowUndercutsIff(w: World, key: StepKey)
    requires Inv(w) && Unhurried(w) && Enabled(w, RetryNow(key))
    ensures Unhurried(Next(w, RetryNow(key))) <==> !Undercuts(w, RetryNow(key))
  {
    hide OneActive, WritersHoldLocks, DelaysKept, LogInOrder, Joined, Advances;
    var t := Next(w, RetryNow(key));
    if i :| 0 <= i < |w.log| && StillWaits(w, i, key) {
      assert !WaitsFor(t, i);
    } else {
      forall i | 0 <= i < |t.log| && t.log[i].enrollment < |t.enrollments| ensures WaitsFor(t, i) {
        assert WaitsFor(w, i) && !StillWaits(w, i, key);
      }
    }
  }

  /** The requests' steps and the taking and giving back of locks. */
  predicate RequestStep(step: Step) {
    step.LeaveRead? || step.LeaveWrite? || step.LeaveCancel? || step.LeaveCommit?
    || step.HandlerLock? || step.SweepLock? || step.HandlerAbort?
  }

  lemma RequestStepLocks(w: World, step: Step)
    requires Inv(w) && Enabled(w, step) && RequestStep(step)
    ensures WritersHoldLocks(Next(w, step))
  {
    hide LogInOrder, OneActive, RowsInRange;
  }

  lemma RowsAreInRange(w: World)
    requires Inv(w)
    ensures forall v | v in w.workers :: w.workers[v] in w.queue
  {
  }

  /** All a request's step does to the rows: cancel one enrollment's, or retire it. */
  lemma RequestStepRows(w: World, step: Step)
    requires Inv(w) && Enabled(w, step) && RequestStep(step)
    ensures var t := Next(w, step);
            && t.log == w.log && t.clock == w.clock && t.workers == w.workers && |t.enrollments| == |w.enrollments|
            && t.queue.Keys == w.queue.Keys && (forall k | k in w.queue :: t.queue[k].runAt == w.queue[k].runAt)
            && forall i | 0 <= i < |w.enrollments| ::
                 t.enrollments[i] == w.enrollments[i] || t.enrollments[i] == Retired(w.enrollments[i])
  {
    hide LogInOrder, OneActive, RowsInRange;
  }

  lemma RequestStepKeeps(w: World, step: Step)
    requires Inv(w) && Enabled(w, step) && RequestStep(step)
    ensures Inv(Next(w, step)) && (Unhurried(w) ==> Unhurried(Next(w, step)))
  {
    hide Inv, Enabled, Next, Unhurried;
    RowsAreInRange(w);
    RequestStepLocks(w, step);
    RequestStepRows(w, step);
    QuietKeeps(w, Next(w, step));
    if Unhurried(w) { QuietWaits(w, Next(w, step)); }
  }

  lemma JoinStepKeeps(w: World, step: Step)
    requires Inv(w) && Enabled(w, step) && step.DoSubscribe?
    ensures Inv(Next(w, step)) && (Unhurried(w) ==> Unhurried(Next(w, step)))
  {
    SubscribeKeeps(w, step.contact, step.windowed);
  }

  lemma StepKeeps(w: World, step: Step)
    requires Inv(w) && Enabled(w, step)
    ensures Inv(Next(w, step))
    ensures Unhurried(w) ==> (Unhurried(Next(w, step)) <==> !Undercuts(w, step))
  {
    hide Inv, Unhurried, Enabled, Next, StillWaits;
    if step.HandlerCommit? {
      CommitKeeps(w, step);
    } else if step.DoSubscribe? {
      JoinStepKeeps(w, step);
    } else if step.SweepCommit? {
      SweepKeeps(w, step);
    } else if QueueStep(step) {
      QueueStepKeeps(w, step);
      if Unhurried(w) {
        if step.RetryNow? { RetryNowUndercutsIff(w, step.key); } else { QueueStepWaits(w, step); }
      }
    } else {
      RequestStepKeeps(w, step);
    }
  }

  /** Nobody pressed "retry now" on a rung that was still waiting. */
  ghost predicate NoUndercut(w: World, run: seq<Step>)
    requires Legal(w, run)
    decreases |run|
  {
    run == [] || (!Undercuts(w, run[0]) && NoUndercut(Next(w, run[0]), run[1..]))
  }

  lemma {:induction false} RunKeeps(w: World, run: seq<Step>)
    requires Inv(w) && Legal(w, run)
    ensures Inv(Exec(w, run))
    ensures Unhurried(w) && NoUndercut(w, run) ==> Unhurried(Exec(w, run))
    decreases |run|
  {
    if run != [] {
      StepKeeps(w, run[0]);
      RunKeeps(Next(w, run[0]), run[1..]);
    }
  }

  // ------------------------------------------------------------------ rung order

  /**
   Over any run, with rows run twice, stale rows, failures, sweeps, operators' retries and
   live edits: an enrollment joins and then advances through 1, 2, 3, ... each once, so its
   flows start at strictly increasing positions, and at most one enrollment of a contact is
   active.  Where nobody pressed "retry now" on a rung still waiting, each advance comes no
   earlier than the previous one, or the joining, plus the delay of the step found then.
   */
  lemma RungsInOrder(steps: seq<real>, clock: real, run: seq<Step>)
    requires Legal(Empty(steps, clock), run)
    ensures var w := Exec(Empty(steps, clock), run);
            && (forall i, j | 0 <= i < j < |w.log| && w.log[i].enrollment == w.log[j].enrollment ::
                  w.log[i].position < w.log[j].position)
            && (forall id | 0 <= id < |w.enrollments| ::
                  Advances(w.log, id) + 1 == w.enrollments[id].currentStep && Joined(w.log, id))
            && LogInOrder(w)
            && OneActive(w)
            && (NoUndercut(Empty(steps, clock), run) ==> DelaysKept(w.log))
  {
    assert Inv(Empty(steps, clock)) && Unhurried(Empty(steps, clock));
    hide Legal, Exec, Empty, NoUndercut;
    RunKeeps(Empty(steps, clock), run);
  }

  /** So the first rung, too, runs no earlier than the joining plus the delay found then. */
  lemma FirstRungWaits(steps: seq<real>, clock: real, run: seq<Step>, j: nat)
    requires Legal(Empty(steps, clock), run) && NoUndercut(Empty(steps, clock), run)
    requires j < |Exec(Empty(steps, clock), run).log| && Exec(Empty(steps, clock), run).log[j].position == 1
    ensures var log := Exec(Empty(steps, clock), run).log;
            exists i :: 0 <= i < j && log[i].enrollment == log[j].enrollment && log[i].position == 0
                        && log[i].delay.Some? && log[j].at >= log[i].at + log[i].delay.value
  {
    hide Legal, Exec, Empty, NoUndercut;
    RungsInOrder(steps, clock, run);
    JoinedBefore(Exec(Empty(steps, clock), run), j);
  }

  lemma JoinedBefore(w: World, j: nat)
    requires LogInOrder(w) && DelaysKept(w.log) && j < |w.log| && w.log[j].position == 1
    ensures exists i :: 0 <= i < j && w.log[i].enrollment == w.log[j].enrollment && w.log[i].position == 0
                        && w.log[i].delay.Some? && w.log[j].at >= w.log[i].at + w.log[i].delay.value
  {
    assert Joined(w.log, w.log[j].enrollment);
    var i :| 0 <= i < |w.log| && w.log[i].enrollment == w.log[j].enrollment && w.log[i].position == 0;
    assert i < j;
  }

  /** With n rungs that are not edited, an active enrollment stands on one of them and a completed one past the last. */
  ghost predicate OnTheLadder(w: World, n: nat) {
    && |w.steps| == n
    && forall i | 0 <= i < |w.enrollments| ::
         && (w.enrollments[i].status.Active? ==> 1 <= w.enrollments[i].currentStep <= n)
         && (w.enrollments[i].status.Completed? ==> w.enrollments[i].currentStep == n + 1)
  }

  lemma LadderHandle(w: World, key: StepKey, runnable: bool, windowed: real, n: nat)
    requires OnTheLadder(w, n)
    ensures OnTheLadder(HandleStep(w, key, runnable, windowed), n)
  {
    hide EnqueueStep, CancelPendingSteps;
  }

  lemma LadderCommit(w: World, step: Step, n: nat)
    requires OnTheLadder(w, n) && Enabled(w, step) && step.HandlerCommit?
    ensures OnTheLadder(Next(w, step), n)
  {
    hide Enabled, Next, HandleStep, Inside, Forward;
    CommitIs(w, step);
    LadderHandle(w, w.workers[step.worker], step.runnable, step.windowed, n);
  }

  lemma LadderStep(w: World, step: Step, n: nat)
    requires OnTheLadder(w, n) && Enabled(w, step) && !step.EditSteps?
    ensures OnTheLadder(Next(w, step), n)
  {
    hide EnqueueStep, CancelPendingSteps, HandleStep, Committed, Unlocked, Freed;
    if step.HandlerCommit? { LadderCommit(w, step, n); }
  }

  lemma {:induction false} LadderRun(w: World, run: seq<Step>, n: nat)
    requires OnTheLadder(w, n) && Legal(w, run) && forall i | 0 <= i < |run| :: !run[i].EditSteps?
    ensures OnTheLadder(Exec(w, run), n)
    decreases |run|
  {
    if run != [] {
      LadderStep(w, run[0], n);
      LadderRun(Next(w, run[0]), run[1..], n);
    }
  }

  /** With n fixed rungs an enrollment is completed only by its n-th advance, and by that one unless it was retired. */
  lemma CompletesAfterEveryRung(steps: seq<real>, clock: real, run: seq<Step>, id: nat)
    requires Legal(Empty(steps, clock), run) && forall i | 0 <= i < |run| :: !run[i].EditSteps?
    requires id < |Exec(Empty(steps, clock), run).enrollments|
    requires !Exec(Empty(steps, clock), run).enrollments[id].status.Unsubscribed?
    ensures var w := Exec(Empty(steps, clock), run);
            w.enrollments[id].status.Completed? <==> Advances(w.log, id) == |steps|
  {
    RunKeeps(Empty(steps, clock), run);
    LadderRun(Empty(steps, clock), run, |steps|);
  }

  // ------------------------------------------------------------------ unsubscribe wins

  /** The step rows of an enrollment that could still run. */
  function AliveRows(w: World, id: nat): set<StepKey> {
    set k | k in w.queue && k.enrollment == id && w.queue[k].status.Alive()
  }

  predicate HeldByWorker(w: World, k: StepKey) {
    exists v :: v in w.workers && w.workers[v] == k
  }

  /** Those that could run or come to run: alive, in some worker's hands, or failed and open to "retry now". */
  function Loose(w: World, id: nat): set<StepKey> {
    set k | k in w.queue && k.enrollment == id
            && (w.queue[k].status.Alive() || w.queue[k].status.Failed? || HeldByWorker(w, k))
  }

  /** Those a cancel of the pending ones cannot stop. */
  function Unstoppable(w: World, id: nat): set<StepKey> {
    set k | k in w.queue && k.enrollment == id
            && (w.queue[k].status.Running? || w.queue[k].status.Failed? || HeldByWorker(w, k))
  }

  /** The enrollment is over, or about to be: the leaver holds its lock, or has committed. */
  ghost predicate Silenced(w: World, request: nat, id: nat, claimed: set<StepKey>, advances: nat) {
    && id < |w.enrollments|
    && (!w.enrollments[id].status.Active? || (request in w.requests && w.requests[request] == Flushed(id)))
    && Loose(w, id) <= claimed
    && Advances(w.log, id) == advances
  }

  lemma SameLoose(w: World, t: World, id: nat)
    requires t.workers == w.workers
    requires forall k: StepKey | k.enrollment == id :: k in t.queue <==> k in w.queue
    requires forall k | k in w.queue && k.enrollment == id :: t.queue[k] == w.queue[k]
    ensures Loose(t, id) == Loose(w, id)
  {
    assert forall k :: HeldByWorker(t, k) == HeldByWorker(w, k);
  }

  /** A step of one enrollment leaves the others' rows, log and request alone. */
  lemma HandleElsewhere(w: World, key: StepKey, runnable: bool, windowed: real, id: nat)
    requires id < |w.enrollments| && key.enrollment != id
    ensures var t := HandleStep(w, key, runnable, windowed);
            && |t.enrollments| == |w.enrollments| && t.enrollments[id] == w.enrollments[id] && t.requests == w.requests
            && Loose(t, id) == Loose(w, id) && Advances(t.log, id) == Advances(w.log, id)
  {
    hide Loose;
    HandleLeavesRows(w, key, runnable, windowed, id);
    var t := HandleStep(w, key, runnable, windowed);
    SameLoose(w, t, id);
    if t.log != w.log { AdvanceCounts(w.log, t.log[|w.log|], id); }
  }

  lemma HandleLeavesRows(w: World, key: StepKey, runnable: bool, windowed: real, id: nat)
    requires id < |w.enrollments| && key.enrollment != id
    ensures var t := HandleStep(w, key, runnable, windowed);
            && t.workers == w.workers
            && (forall k: StepKey | k.enrollment == id :: k in t.queue <==> k in w.queue)
            && (forall k | k in w.queue && k.enrollment == id :: t.queue[k] == w.queue[k])
  {
    hide Advanced;
  }

  lemma RetireSilences(w: World, request: nat, id: nat, claimed: set<StepKey>, advances: nat)
    requires Silenced(w, request, id, claimed, advances)
    ensures Silenced(Retire(w, id), request, id, claimed, advances)
  {
    assert Loose(Retire(w, id), id) <= Loose(w, id);
  }

  lemma SilencedHandle(w: World, key: StepKey, runnable: bool, windowed: real, request: nat, id: nat, claimed: set<StepKey>, advances: nat)
    requires Silenced(w, request, id, claimed, advances)
    requires key.enrollment == id ==> !w.enrollments[id].status.Active?
    ensures Silenced(HandleStep(w, key, runnable, windowed), request, id, claimed, advances)
  {
    if key.enrollment == id {
      assert HandleStep(w, key, runnable, windowed) == w || HandleStep(w, key, runnable, windowed) == Retire(w, id);
      hide *;
      RetireSilences(w, request, id, claimed, advances);
    } else {
      HandleElsewhere(w, key, runnable, windowed, id);
      hide HandleStep, Loose, Advances;
    }
  }

  lemma CommittedSilences(h: World, worker: nat, key: StepKey, marked: bool, request: nat, id: nat,
                          claimed: set<StepKey>, advances: nat)
    requires Silenced(h, request, id, claimed, advances)
    ensures Silenced(Committed(h, worker, key, marked), request, id, claimed, advances)
  {
    hide Advances;
    var t := Committed(h, worker, key, marked);
    forall k | k in Loose(t, id) ensures k in Loose(h, id) {
      assert HeldByWorker(t, k) ==> HeldByWorker(h, k);
    }
  }

  /** A worker inside its handler cannot be at an enrollment whose lock the leaver holds. */
  lemma CommittingIdIsOver(w: World, worker: nat, request: nat, id: nat, claimed: set<StepKey>, advances: nat)
    requires Inv(w) && Inside(w, worker) && Silenced(w, request, id, claimed, advances)
    ensures w.workers[worker].enrollment == id ==> !w.enrollments[id].status.Active?
  {
    hide LogInOrder, OneActive, RowsInRange, Loose, Advances;
  }

  lemma SilencedCommit(w: World, step: Step, request: nat, id: nat, claimed: set<StepKey>, advances: nat)
    requires Inv(w) && Enabled(w, step) && step.HandlerCommit? && Silenced(w, request, id, claimed, advances)
    ensures Silenced(Next(w, step), request, id, claimed, advances)
  {
    CommitIs(w, step);
    var key := w.workers[step.worker];
    CommittingIdIsOver(w, step.worker, request, id, claimed, advances);
    hide Inv, Advances, HandleStep, Loose, Committed, Enabled, Next, Silenced;
    SilencedHandle(w, key, step.runnable, step.windowed, request, id, claimed, advances);
    CommittedSilences(HandleStep(w, key, step.runnable, step.windowed), step.worker, key, step.marked,
                      request, id, claimed, advances);
  }

  lemma SilencedSubscribe(w: World, step: Step, request: nat, id: nat, claimed: set<StepKey>, advances: nat)
    requires Inv(w) && Enabled(w, step) && step.DoSubscribe? && Silenced(w, request, id, claimed, advances)
    ensures Silenced(Next(w, step), request, id, claimed, advances)
  {
    assert ActiveOf(w.enrollments, step.contact) != id by { hide LogInOrder, OneActive, RowsInRange, Loose; }
    assert Next(w, step) == Subscribe(w, step.contact, step.windowed) by { hide Subscribe, ActiveOf; }
    hide Inv, Enabled, Next, Advances;
    SubscribeSilences(w, step.contact, step.windowed, request, id, claimed, advances);
  }

  lemma SubscribeSilences(w: World, contact: nat, windowed: real, request: nat, id: nat, claimed: set<StepKey>, advances: nat)
    requires Silenced(w, request, id, claimed, advances) && ActiveOf(w.enrollments, contact) != id
    ensures Silenced(Subscribe(w, contact, windowed), request, id, claimed, advances)
  {
    hide Advances, ActiveOf, Loose, Joined;
    var t := Subscribe(w, contact, windowed);
    assert t.log == w.log + [t.log[|w.log|]];
    AdvanceCounts(w.log, t.log[|w.log|], id);
    SameLoose(w, t, id);
  }

  lemma SilencedStep(w: World, step: Step, request: nat, id: nat, claimed: set<StepKey>, advances: nat)
    requires Inv(w) && Enabled(w, step) && Silenced(w, request, id, claimed, advances)
    ensures Silenced(Next(w, step), request, id, claimed, advances)
  {
    hide Inv, Enabled, Next, Silenced;
    if step.HandlerCommit? {
      SilencedCommit(w, step, request, id, claimed, advances);
    } else if step.DoSubscribe? {
      SilencedSubscribe(w, step, request, id, claimed, advances);
    } else {
      SilencedOtherwise(w, step, request, id, claimed, advances);
    }
  }

  lemma SilencedOtherwise(w: World, step: Step, request: nat, id: nat, claimed: set<StepKey>, advances: nat)
    requires Inv(w) && Enabled(w, step) && Silenced(w, request, id, claimed, advances)
    requires !step.HandlerCommit? && !step.DoSubscribe?
    ensures Silenced(Next(w, step), request, id, claimed, advances)
  {
    hide LogInOrder, OneActive, Advances;
    forall k | k in Loose(Next(w, step), id) ensures k in Loose(w, id) {
      StaysLoose(w, step, id, k);
    }
  }

  /** What is loose after a step that neither commits a handler nor joins anybody was loose before, unless a sweep queued it. */
  lemma StaysLoose(w: World, step: Step, id: nat, k: StepKey)
    requires Inv(w) && Enabled(w, step) && id < |w.enrollments| && !step.HandlerCommit? && !step.DoSubscribe?
    requires w.enrollments[id].status.Active? ==> !(step.SweepCommit? && step.enrollment == id)
    requires k in Loose(Next(w, step), id)
    ensures k in Loose(w, id)
  {
    hide Inv, Enabled, Next, Loose;
    if QueueStep(step) {
      QueueStepStaysLoose(w, step, id, k);
    } else if step.SweepCommit? {
      SweepStaysLoose(w, step, id, k);
    } else {
      RequestStepStaysLoose(w, step, id, k);
    }
  }

  lemma SweepStaysLoose(w: World, step: Step, id: nat, k: StepKey)
    requires Enabled(w, step) && step.SweepCommit? && k in Loose(Next(w, step), id) && id < |w.enrollments|
    requires w.enrollments[id].status.Active? ==> step.enrollment != id
    ensures k in Loose(w, id)
  {
    hide Unlocked;
    assert HeldByWorker(Next(w, step), k) ==> HeldByWorker(w, k);
  }

  lemma RequestStepStaysLoose(w: World, step: Step, id: nat, k: StepKey)
    requires Enabled(w, step) && RequestStep(step) && k in Loose(Next(w, step), id)
    ensures k in Loose(w, id)
  {
    hide Unlocked;
    assert HeldByWorker(Next(w, step), k) ==> HeldByWorker(w, k);
  }

  lemma QueueStepStaysLoose(w: World, step: Step, id: nat, k: StepKey)
    requires Inv(w) && Enabled(w, step) && QueueStep(step) && k in Loose(Next(w, step), id)
    ensures k in Loose(w, id)
  {
    hide LogInOrder, OneActive, WritersHoldLocks;
    var t := Next(w, step);
    if step.Claim? {
      assert k == step.key || (HeldByWorker(t, k) ==> HeldByWorker(w, k));
    } else if step.HandlerFail? {
      assert HeldByWorker(w, w.workers[step.worker]);
      assert HeldByWorker(t, k) ==> HeldByWorker(w, k);
    } else {
      assert HeldByWorker(t, k) ==> HeldByWorker(w, k);
    }
  }

  lemma {:induction false} SilencedRun(w: World, run: seq<Step>, request: nat, id: nat, claimed: set<StepKey>, advances: nat)
    requires Inv(w) && Legal(w, run) && Silenced(w, request, id, claimed, advances)
    ensures Silenced(Exec(w, run), request, id, claimed, advances) && Inv(Exec(w, run))
    decreases |run|
  {
    if run != [] {
      StepKeeps(w, run[0]);
      SilencedStep(w, run[0], request, id, claimed, advances);
      SilencedRun(Next(w, run[0]), run[1..], request, id, claimed, advances);
    }
  }

  /** The request has cancelled the enrollment's pending rows and not committed yet. */
  predicate Leaving(w: World, request: nat, id: nat) {
    request in w.requests && w.requests[request] == Flushed(id)
  }

  /**
   Unsubscribe wins.  Take any state a run can reach in which the request holds the row,
   however stale the read that led there; let it cancel, and let anything happen, its
   commit included.  From the commit on the enrollment is never active; from the cancel on
   it advances no further, so no flow starts; and the only step rows of it that a worker
   can still have or get are those that were running, held or failed at the cancel.
   */
  lemma UnsubscribeWins(w: World, request: nat, run: seq<Step>)
    requires Inv(w) && Enabled(w, LeaveCancel(request)) && Legal(Next(w, LeaveCancel(request)), run)
    ensures var id := w.requests[request].enrollment;
            var t := Exec(Next(w, LeaveCancel(request)), run);
            && id < |t.enrollments|
            && (!Leaving(t, request, id) ==> !t.enrollments[id].status.Active?)
            && Advances(t.log, id) == Advances(w.log, id)
            && AliveRows(t, id) <= Loose(t, id) <= Unstoppable(w, id)
  {
    CancelSilences(w, request);
    StepKeeps(w, LeaveCancel(request));
    var id := w.requests[request].enrollment;
    SilencedRun(Next(w, LeaveCancel(request)), run, request, id, Unstoppable(w, id), Advances(w.log, id));
  }

  lemma CancelSilences(w: World, request: nat)
    requires Inv(w) && Enabled(w, LeaveCancel(request))
    ensures var id := w.requests[request].enrollment;
            Silenced(Next(w, LeaveCancel(request)), request, id, Unstoppable(w, id), Advances(w.log, id))
  {
    hide LogInOrder, OneActive;
    var id := w.requests[request].enrollment;
    assert forall k | k in Loose(Next(w, LeaveCancel(request)), id) :: k in Unstoppable(w, id);
  }

  /** An enrollment that has stopped being active never becomes active again. */
  lemma {:induction false} EndedRun(w: World, run: seq<Step>, id: nat)
    requires Legal(w, run) && id < |w.enrollments| && !w.enrollments[id].status.Active?
    ensures id < |Exec(w, run).enrollments| && !Exec(w, run).enrollments[id].status.Active?
    decreases |run|
  {
    if run != [] {
      EndedStep(w, run[0], id);
      EndedRun(Next(w, run[0]), run[1..], id);
    }
  }

  lemma EndedStep(w: World, step: Step, id: nat)
    requires Enabled(w, step) && id < |w.enrollments| && !w.enrollments[id].status.Active?
    ensures id < |Next(w, step).enrollments| && !Next(w, step).enrollments[id].status.Active?
  {
  }

  /** A run after the commit that leaves a step row of the enrollment pending. */
  ghost predicate PendingAgain(w: World, request: nat, id: nat, run: seq<Step>) {
    && Legal(w, [LeaveCancel(request), LeaveCommit(request)] + run)
    && exists k :: k in Exec(w, [LeaveCancel(request), LeaveCommit(request)] + run).queue && k.enrollment == id
                   && Exec(w, [LeaveCancel(request), LeaveCommit(request)] + run).queue[k].status.Pending?
  }

  /**
   The cancel leaves no pending row behind, and none comes back, exactly when no row of the
   enrollment was running, held or failed just then: a claimed row can be handed back to the
   queue, a failed one retried.  It then runs for nothing.
   */
  lemma PendingRowReturnsIffClaimed(w: World, request: nat)
    requires Inv(w) && Enabled(w, LeaveCancel(request))
    ensures var id := w.requests[request].enrollment;
            (exists run :: PendingAgain(w, request, id, run)) <==> Unstoppable(w, id) != {}
  {
    var id := w.requests[request].enrollment;
    if Unstoppable(w, id) != {} {
      var k :| k in Unstoppable(w, id);
      var back := ComesBack(w, request, k);
      assert PendingAgain(w, request, id, [back]);
    }
    forall run | PendingAgain(w, request, id, run) ensures Unstoppable(w, id) != {} {
      PendingNeedsClaim(w, request, run);
    }
  }

  lemma ThreeSteps(w: World, a: Step, b: Step, c: Step)
    requires Enabled(w, a) && Enabled(Next(w, a), b) && Enabled(Next(Next(w, a), b), c)
    ensures Legal(w, [a, b] + [c]) && Exec(w, [a, b] + [c]) == Next(Next(Next(w, a), b), c)
  {
    hide Enabled, Next;
    var run := [a, b] + [c];
    var one := Next(w, a);
    var two := Next(one, b);
    assert run[0] == a && run[1..] == [b, c] && [b, c][1..] == [c] && [c][1..] == [];
    assert Legal(two, [c]) && Exec(two, [c]) == Next(two, c);
    assert Legal(one, [b, c]) && Exec(one, [b, c]) == Next(two, c);
  }

  /** The step that makes such a row pending: recovery, the operator, or the failure of the worker that has it. */
  /** Cancelling and committing touch no row but the pending ones, and nobody's claim. */
  lemma LeavingSpares(w: World, request: nat, k: StepKey)
    requires Inv(w) && Enabled(w, LeaveCancel(request)) && k in w.queue
    ensures var one := Next(w, LeaveCancel(request));
            && Enabled(one, LeaveCommit(request))
            && var two := Next(one, LeaveCommit(request));
               && two.workers == w.workers && two.clock == w.clock && k in two.queue
               && (!w.queue[k].status.Pending? ==> two.queue[k] == w.queue[k])
               && (HeldByWorker(w, k) <==> HeldByWorker(two, k)) && w.requests[request].enrollment !in two.locks
  {
    hide LogInOrder, OneActive;
  }

  /** One step that puts a running, failed or held row back in the queue. */
  lemma PutsBack(w: World, k: StepKey) returns (back: Step)
    requires k in w.queue && (w.queue[k].status.Running? || w.queue[k].status.Failed? || HeldByWorker(w, k))
    requires k.enrollment !in w.locks
    ensures Enabled(w, back) && k in Next(w, back).queue && Next(w, back).queue[k].status.Pending?
  {
    hide HandleStep, Subscribe, SweepOne, Committed;
    if w.queue[k].status.Running? {
      back := Recover(k);
    } else if w.queue[k].status.Failed? {
      back := RetryNow(k);
    } else {
      var v :| v in w.workers && w.workers[v] == k;
      back := HandlerFail(v, w.clock, false);
    }
  }

  lemma ComesBack(w: World, request: nat, k: StepKey) returns (back: Step)
    requires Inv(w) && Enabled(w, LeaveCancel(request)) && k in Unstoppable(w, w.requests[request].enrollment)
    ensures PendingAgain(w, request, w.requests[request].enrollment, [back])
  {
    hide Inv, Next, Legal, Exec;
    LeavingSpares(w, request, k);
    var two := Next(Next(w, LeaveCancel(request)), LeaveCommit(request));
    back := PutsBack(two, k);
    ThreeSteps(w, LeaveCancel(request), LeaveCommit(request), back);
  }

  lemma PendingNeedsClaim(w: World, request: nat, run: seq<Step>)
    requires Inv(w) && Enabled(w, LeaveCancel(request)) && PendingAgain(w, request, w.requests[request].enrollment, run)
    ensures Unstoppable(w, w.requests[request].enrollment) != {}
  {
    var id := w.requests[request].enrollment;
    var full := [LeaveCancel(request), LeaveCommit(request)] + run;
    var one := Next(w, LeaveCancel(request));
    assert full[0] == LeaveCancel(request);
    StepKeeps(w, LeaveCancel(request));
    CancelSilences(w, request);
    SilencedRun(one, full[1..], request, id, Unstoppable(w, id), Advances(w.log, id));
    var t := Exec(w, full);
    var k :| k in t.queue && k.enrollment == id && t.queue[k].status.Pending?;
    assert k in Loose(t, id);
  }
}
