/** The enrollment services and the step handler as they run, on rows updated in place. */
module SequenceStore {
  import opened Queue
  import opened Sequences
  import Laws = SequenceLaws

  class Store {
    var steps: seq<real>
    var enrollments: seq<Enrollment>
    var queue: Rows
    var gone: set<nat>
    ghost var log: seq<Rung>
    var clock: real

    ghost function Now(): World
      reads this
    {
      World(steps, enrollments, queue, gone, log, clock, map[], map[], map[])
    }

    constructor (steps: seq<real>, clock: real)
      ensures Now() == Empty(steps, clock)
    {
      this.steps, this.clock := steps, clock;
      enrollments, queue, gone, log := [], map[], {}, [];
    }

    /** `enqueue_step`. */
    method EnqueueCurrent(id: nat)
      requires id < |enrollments|
      modifies this`queue
      ensures queue == EnqueueStep(old(queue), id, enrollments[id])
      ensures Laws.QueuedFor(old(queue), queue, id, enrollments[id])
    {
      var e := enrollments[id];
      if !e.status.Active? || e.nextRunAt.None? { return; }
      queue := Enqueue(queue, StepKey(id, e.currentStep), e.nextRunAt.value, id);
    }

    /** `_retire`: the row, then its queued steps. */
    method RetireEnrollment(id: nat)
      requires id < |enrollments|
      modifies this`enrollments, this`queue
      ensures Now() == Retire(old(Now()), id)
      ensures Laws.Stopped(old(Now()), Now(), id)
    {
      hide Laws.Stopped;
      Laws.RetireLaw(Now(), id);
      var e := enrollments[id];
      e := e.(status := Unsubscribed);
      e := e.(nextRunAt := None);
      enrollments := enrollments[id := e];
      queue := map k | k in queue ::
        if queue[k].status.Pending? && k.enrollment == id then queue[k].(status := ActionStatus.Cancelled) else queue[k];
    }

    /** `retire_if_contact_gone`. */
    method RetireIfContactGone(id: nat) returns (retired: bool)
      requires id < |enrollments|
      modifies this`enrollments, this`queue
      ensures retired <==> old(enrollments)[id].contact in gone
      ensures Now() == if retired then Retire(old(Now()), id) else old(Now())
    {
      if enrollments[id].contact !in gone { return false; }
      RetireEnrollment(id);
      return true;
    }

    /** `handle_sequence_step` for one queue row. */
    method HandleSequenceStep(key: StepKey, runnable: bool, windowed: real)
      modifies this
      ensures Now() == HandleStep(old(Now()), key, runnable, windowed)
      ensures Laws.Stepped(old(Now()), Now(), key, runnable, windowed)
    {
      hide Laws.Stepped, Laws.Stopped, Laws.QueuedFor;
      Laws.HandleLaw(Now(), key, runnable, windowed);
      if key.enrollment >= |enrollments| { return; }
      var id := key.enrollment;
      var retired := RetireIfContactGone(id);
      if retired { return; }
      if !enrollments[id].status.Active? { return; }
      if key.position != enrollments[id].currentStep { return; }
      var step := StepAt(steps, key.position);
      Advance(id, step.Some? && runnable, windowed);
    }

    /** `_advance`: the next rung or the end, then its queue row. */
    method Advance(id: nat, ghost started: bool, windowed: real)
      requires id < |enrollments| && enrollments[id].status.Active?
      modifies this
      ensures enrollments == old(enrollments)[id := Advanced(old(enrollments)[id], StepAt(steps, old(enrollments)[id].currentStep + 1), clock, windowed)]
      ensures queue == EnqueueStep(old(queue), id, enrollments[id])
      ensures log == old(log) + [Rung(id, old(enrollments)[id].currentStep, clock, started,
                                      StepAt(steps, old(enrollments)[id].currentStep + 1))]
      ensures steps == old(steps) && gone == old(gone) && clock == old(clock)
    {
      var e := enrollments[id];
      var following := StepAt(steps, e.currentStep + 1);
      log := log + [Rung(id, e.currentStep, clock, started, following)];
      e := e.(lastSentAt := Some(clock));
      e := e.(currentStep := e.currentStep + 1);
      if following.None? {
        e := e.(status := Completed);
        e := e.(nextRunAt := None);
      } else {
        e := e.(nextRunAt := Some(windowed));
      }
      enrollments := enrollments[id := e];
      EnqueueCurrent(id);
    }

    /**
     `subscribe`: refused in another workspace, for a sequence that is not active, and when a
     concurrent subscribe has won the contact's one active place; a refusal rolls back the
     retirement of the old enrollment with everything else.
     */
    method SubscribeContact(contact: nat, windowed: real, sameWorkspace: bool, runnable: bool, lost: bool)
      returns (id: Option<nat>)
      modifies this
      ensures id == if sameWorkspace && runnable && !lost then Some(old(|enrollments|)) else None
      ensures id.None? ==> Now() == old(Now())
      ensures id.Some? ==> Now() == Subscribe(old(Now()), contact, windowed) && enrollments[id.value].contact == contact
      ensures id.Some? ==> Laws.Subscribed(old(Now()), Now(), contact, windowed)
      ensures id.Some? ==>
                && enrollments[id.value].currentStep == 1 && enrollments[id.value].lastSentAt.None?
                && (if |steps| == 0 then enrollments[id.value].status.Completed? && enrollments[id.value].nextRunAt.None?
                    else && enrollments[id.value].status.Active? && enrollments[id.value].nextRunAt == Some(windowed)
                         && StepKey(id.value, 1) in queue
                         && (StepKey(id.value, 1) !in old(queue) ==>
                               queue[StepKey(id.value, 1)] == Action(ActionStatus.Pending, windowed, id.value)))
    {
      hide Laws.Subscribed, Laws.Stopped, Laws.QueuedFor, ActiveOf;
      Laws.SubscribeLaw(Now(), contact, windowed);
      if !sameWorkspace || !runnable { return None; }
      var savedEnrollments, savedQueue := enrollments, queue;
      var existing := ActiveOf(enrollments, contact);
      if existing < |enrollments| { RetireEnrollment(existing); }
      if lost {
        enrollments, queue := savedEnrollments, savedQueue;
        return None;
      }
      var first := StepAt(steps, 1);
      var e := Enrollment(contact, 1, if first.Some? then Some(windowed) else None, None,
                          if first.Some? then Active else Completed);
      id := Some(|enrollments|);
      log := log + [Rung(|enrollments|, 0, clock, false, first)];
      enrollments := enrollments + [e];
      EnqueueCurrent(|enrollments| - 1);
    }

    /** `unsubscribe`, run alone: quiet when nobody is enrolled. */
    method UnsubscribeContact(contact: nat) returns (stopped: Option<nat>)
      modifies this
      ensures var existing := ActiveOf(old(enrollments), contact);
              if existing < old(|enrollments|)
              then && stopped == Some(existing) && Now() == Retire(old(Now()), existing)
                   && Laws.IsActive(old(Now()), contact, existing) && Laws.Stopped(old(Now()), Now(), existing)
              else stopped == None && Now() == old(Now())
    {
      var existing := ActiveOf(enrollments, contact);
      if existing == |enrollments| { return None; }
      RetireEnrollment(existing);
      return Some(existing);
    }
  }

  /** Where an unsubscribe stands between its write and its cancel. */
  function LeaveWritten(w: World, request: nat, id: nat): World {
    w.(requests := w.requests[request := Wrote(id)], locks := w.locks[id := Leaver(request)])
  }

  lemma LeaveBegins(w: World, request: nat, id: nat)
    requires id < |w.enrollments| && w.enrollments[id].status.Active? && id !in w.locks && request !in w.requests
    ensures Enabled(w, LeaveRead(request, id)) && Enabled(Next(w, LeaveRead(request, id)), LeaveWrite(request))
    ensures Next(Next(w, LeaveRead(request, id)), LeaveWrite(request)) == LeaveWritten(w, request, id)
  {
    hide HandleStep, Subscribe, SweepOne, Failing, Committed, ActiveOf, Forward, Mark;
    assert w.requests[request := HasRead(id)][request := Wrote(id)] == w.requests[request := Wrote(id)];
  }

  lemma LeaveEnds(w: World, request: nat, id: nat)
    requires id < |w.enrollments| && id !in w.locks && request !in w.requests
    ensures var b := LeaveWritten(w, request, id);
            && Enabled(b, LeaveCancel(request)) && Enabled(Next(b, LeaveCancel(request)), LeaveCommit(request))
            && Next(Next(b, LeaveCancel(request)), LeaveCommit(request)) == Retire(w, id)
  {
    hide HandleStep, Subscribe, SweepOne, Failing, Committed, ActiveOf, Forward, Mark, CancelPendingSteps;
    var d := Next(Next(LeaveWritten(w, request, id), LeaveCancel(request)), LeaveCommit(request));
    assert d.locks == w.locks;
    assert d.requests == w.requests;
  }

  lemma RunOne(w: World, run: seq<Step>)
    requires |run| == 1 && Enabled(w, run[0])
    ensures Legal(w, run) && Exec(w, run) == Next(w, run[0])
  {
    var rest := run[1..];
    assert rest == [];
    assert Legal(Next(w, run[0]), rest);
    assert Exec(Next(w, run[0]), rest) == Next(w, run[0]);
  }

  lemma FourSteps(w: World, a: Step, b: Step, c: Step, d: Step)
    requires Enabled(w, a) && Enabled(Next(w, a), b) && Enabled(Next(Next(w, a), b), c)
    requires Enabled(Next(Next(Next(w, a), b), c), d)
    ensures Legal(w, [a, b, c, d]) && Exec(w, [a, b, c, d]) == Next(Next(Next(Next(w, a), b), c), d)
  {
    var x, y, z := Next(w, a), Next(Next(w, a), b), Next(Next(Next(w, a), b), c);
    assert [a, b, c, d][1..] == [b, c, d] && [b, c, d][1..] == [c, d] && [c, d][1..] == [d] && [d][1..] == [];
    RunOne(z, [d]);
    assert Legal(y, [c, d]) && Exec(y, [c, d]) == Next(z, d);
    assert Legal(x, [b, c, d]) && Exec(x, [b, c, d]) == Next(z, d);
  }

  /** The three statements of an unsubscribe and its commit, uninterrupted, are the one-shot retirement. */
  lemma SplitLeaveIsRetire(w: World, request: nat, id: nat)
    requires id < |w.enrollments| && w.enrollments[id].status.Active? && id !in w.locks && request !in w.requests
    ensures var run := [LeaveRead(request, id), LeaveWrite(request), LeaveCancel(request), LeaveCommit(request)];
            Legal(w, run) && Exec(w, run) == Retire(w, id)
  {
    hide *;
    LeaveBegins(w, request, id);
    LeaveEnds(w, request, id);
    FourSteps(w, LeaveRead(request, id), LeaveWrite(request), LeaveCancel(request), LeaveCommit(request));
  }
}
