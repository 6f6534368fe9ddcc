/** Runs from an empty sequence on which the guards of the step handler and of the cancel come into play. */
module SequenceWitnesses {
  import opened Queue
  import opened Sequences
  import opened SequenceSweep
  import opened SequenceTheorems

  /** Some run from `s` ends in `w`. */
  ghost predicate Reached(s: World, w: World) {
    exists run :: Legal(s, run) && Exec(s, run) == w
  }

  lemma {:induction false} Appended(s: World, run: seq<Step>, step: Step)
    requires Legal(s, run) && Enabled(Exec(s, run), step)
    ensures Legal(s, run + [step]) && Exec(s, run + [step]) == Next(Exec(s, run), step)
    decreases |run|
  {
    hide Enabled, Next;
    var longer := run + [step];
    if run == [] {
      assert longer == [step] && longer[1..] == [];
      assert Legal(Next(s, step), []) && Exec(Next(s, step), []) == Next(s, step);
    } else {
      assert longer[0] == run[0] && longer[1..] == run[1..] + [step];
      Appended(Next(s, run[0]), run[1..], step);
    }
  }

  lemma Starts(s: World)
    ensures Reached(s, s)
  {
    assert Legal(s, []) && Exec(s, []) == s;
  }

  lemma OneMore(s: World, w: World, step: Step, t: World)
    requires Reached(s, w) && Enabled(w, step) && Next(w, step) == t
    ensures Reached(s, t)
  {
    hide Enabled, Next;
    var run :| Legal(s, run) && Exec(s, run) == w;
    Appended(s, run, step);
  }

  // ------------------------------------------------------------------ a first rung, claimed

  /** One contact enrolled at the first of two rungs, with a row for it, due now. */
  function Enrolled(status: ActionStatus, workers: map<nat, StepKey>): World {
    Empty([0.0, 60.0], 0.0).(
      enrollments := [Enrollment(7, 1, Some(0.0), None, Active)],
      queue := map[StepKey(0, 1) := Action(status, 0.0, 0)],
      log := [JOINED],
      workers := workers)
  }

  const FIRST := StepKey(0, 1)

  const JOINED := Rung(0, 0, 0.0, false, Some(0.0))

  lemma FirstClaim()
    ensures Reached(Empty([0.0, 60.0], 0.0), Enrolled(ActionStatus.Running, map[1 := FIRST]))
  {
    var s := Empty([0.0, 60.0], 0.0);
    var waiting := Enrolled(ActionStatus.Pending, map[]);
    Starts(s);
    assert Next(s, DoSubscribe(7, 0.0)) == waiting;
    OneMore(s, s, DoSubscribe(7, 0.0), waiting);
    assert Next(waiting, Claim(1, FIRST)).queue == Enrolled(ActionStatus.Running, map[1 := FIRST]).queue;
    OneMore(s, waiting, Claim(1, FIRST), Enrolled(ActionStatus.Running, map[1 := FIRST]));
  }

  /** Recovery takes the row for abandoned, and a second worker claims it while the first still has it. */
  lemma SecondClaim()
    ensures Reached(Empty([0.0, 60.0], 0.0), Enrolled(ActionStatus.Running, map[1 := FIRST, 2 := FIRST]))
  {
    var s := Empty([0.0, 60.0], 0.0);
    FirstClaim();
    var one := Enrolled(ActionStatus.Running, map[1 := FIRST]);
    var back := Enrolled(ActionStatus.Pending, map[1 := FIRST]);
    var two := Enrolled(ActionStatus.Running, map[1 := FIRST, 2 := FIRST]);
    assert Next(one, Recover(FIRST)).queue == back.queue;
    OneMore(s, one, Recover(FIRST), back);
    assert Next(back, Claim(2, FIRST)).queue == two.queue;
    OneMore(s, back, Claim(2, FIRST), two);
  }

  // ------------------------------------------------------------------ the position guard

  /** The second worker has run the first rung and committed; the first worker is inside its handler, late. */
  function Late(): World {
    Enrolled(ActionStatus.Done, map[1 := FIRST]).(
      enrollments := [Enrollment(7, 2, Some(60.0), Some(0.0), Active)],
      queue := map[FIRST := Action(ActionStatus.Done, 0.0, 0), StepKey(0, 2) := Action(ActionStatus.Pending, 60.0, 0)],
      log := [JOINED, Rung(0, 1, 0.0, true, Some(60.0))],
      locks := map[0 := Handler(1)])
  }

  lemma LateIsReached()
    ensures Reached(Empty([0.0, 60.0], 0.0), Late())
  {
    var s := Empty([0.0, 60.0], 0.0);
    SecondClaim();
    var two := Enrolled(ActionStatus.Running, map[1 := FIRST, 2 := FIRST]);
    var inside := two.(locks := map[0 := Handler(2)]);
    OneMore(s, two, HandlerLock(2), inside);
    var done := Late().(locks := map[]);
    SecondCommits(inside, done);
    OneMore(s, inside, HandlerCommit(2, true, 60.0, true), done);
    OneMore(s, done, HandlerLock(1), Late());
  }

  /** The second worker's handler, before its commit. */
  lemma FirstRungRuns(inside: World)
    requires inside == Enrolled(ActionStatus.Running, map[1 := FIRST, 2 := FIRST]).(locks := map[0 := Handler(2)])
    ensures HandleStep(inside, FIRST, true, 60.0) == inside.(
              enrollments := Late().enrollments,
              queue := map[FIRST := Action(ActionStatus.Running, 0.0, 0), StepKey(0, 2) := Action(ActionStatus.Pending, 60.0, 0)],
              log := Late().log)
  {
    var h := HandleStep(inside, FIRST, true, 60.0);
    assert h.enrollments == Late().enrollments;
    assert h.queue == map[FIRST := Action(ActionStatus.Running, 0.0, 0), StepKey(0, 2) := Action(ActionStatus.Pending, 60.0, 0)];
  }

  lemma SecondCommits(inside: World, done: World)
    requires inside == Enrolled(ActionStatus.Running, map[1 := FIRST, 2 := FIRST]).(locks := map[0 := Handler(2)])
    requires done == Late().(locks := map[])
    ensures Enabled(inside, HandlerCommit(2, true, 60.0, true))
    ensures Next(inside, HandlerCommit(2, true, 60.0, true)) == done
  {
    hide HandleStep;
    FirstRungRuns(inside);
    var h := HandleStep(inside, FIRST, true, 60.0);
    assert Committed(h, 2, FIRST, true).queue == done.queue;
    assert Committed(h, 2, FIRST, true).workers == done.workers;
  }

  /**
   The position guard is not idle: a run reaches a worker inside its handler with a row for a
   rung its enrollment has passed.  The run then starts no flow and moves nothing but its own
   row, which without the guard would have been a second advance.
   */
  lemma StaleRowRuns()
    ensures exists w: World, worker: nat ::
              && Reached(Empty([0.0, 60.0], 0.0), w) && Inside(w, worker)
              && w.workers[worker].enrollment < |w.enrollments|
              && var e := w.enrollments[w.workers[worker].enrollment];
                 && e.status.Active? && e.contact !in w.gone && w.workers[worker].position < e.currentStep
                 && forall runnable: bool, windowed: real :: HandleStep(w, w.workers[worker], runnable, windowed) == w
  {
    LateIsReached();
    assert Inside(Late(), 1) && Late().workers[1] == FIRST;
  }

  // ------------------------------------------------------------------ a row held at the cancel

  /** A leaver has written its row while a worker has its first step. */
  lemma ClaimedAtTheCancel()
    ensures exists w: World, request: nat, run: seq<Step> ::
              && Reached(Empty([0.0, 60.0], 0.0), w) && Enabled(w, LeaveCancel(request))
              && PendingAgain(w, request, w.requests[request].enrollment, run)
  {
    var s := Empty([0.0, 60.0], 0.0);
    FirstClaim();
    var one := Enrolled(ActionStatus.Running, map[1 := FIRST]);
    var read := one.(requests := map[9 := HasRead(0)]);
    OneMore(s, one, LeaveRead(9, 0), read);
    var wrote := read.(requests := map[9 := Wrote(0)], locks := map[0 := Leaver(9)]);
    OneMore(s, read, LeaveWrite(9), wrote);
    assert Inv(wrote) by {
      InvIsReached(s, wrote);
    }
    assert FIRST in Unstoppable(wrote, 0);
    PendingRowReturnsIffClaimed(wrote, 9);
  }

  lemma InvIsReached(s: World, w: World)
    requires Inv(s) && Reached(s, w)
    ensures Inv(w)
  {
    var run :| Legal(s, run) && Exec(s, run) == w;
    RunKeeps(s, run);
  }

  // ------------------------------------------------------------------ "retry now"

  /** The second rung, due in a minute, hurried by the operator and run at once. */
  function Hurried(): World {
    Late().(
      enrollments := [Enrollment(7, 3, None, Some(0.0), Completed)],
      queue := map[FIRST := Action(ActionStatus.Done, 0.0, 0), StepKey(0, 2) := Action(ActionStatus.Done, 0.0, 0)],
      log := [JOINED, Rung(0, 1, 0.0, true, Some(60.0)), Rung(0, 2, 0.0, true, None)],
      locks := map[],
      workers := map[1 := FIRST])
  }

  /** An operator's "retry now" does undercut the delay: the next rung's row may be run before its time. */
  lemma RetryNowUndercutsTheDelay()
    ensures exists w: World :: Reached(Empty([0.0, 60.0], 0.0), w) && !DelaysKept(w.log)
  {
    var s := Empty([0.0, 60.0], 0.0);
    var key := StepKey(0, 2);
    LateIsReached();
    var aborted := Late().(locks := map[]);
    OneMore(s, Late(), HandlerAbort(1), aborted);
    var retried := aborted.(queue := map[FIRST := Action(ActionStatus.Done, 0.0, 0), key := Action(ActionStatus.Pending, 0.0, 0)]);
    OneMore(s, aborted, RetryNow(key), retried);
    var claimed := retried.(
      queue := map[FIRST := Action(ActionStatus.Done, 0.0, 0), key := Action(ActionStatus.Running, 0.0, 0)],
      workers := map[1 := FIRST, 3 := key]);
    OneMore(s, retried, Claim(3, key), claimed);
    var inside := claimed.(locks := map[0 := Handler(3)]);
    OneMore(s, claimed, HandlerLock(3), inside);
    HurriedCommits(inside);
    OneMore(s, inside, HandlerCommit(3, true, 0.0, true), Hurried());
    assert Hurried().log[1].enrollment == Hurried().log[2].enrollment;
  }

  lemma HurriedCommits(inside: World)
    requires inside == Late().(
      queue := map[FIRST := Action(ActionStatus.Done, 0.0, 0), StepKey(0, 2) := Action(ActionStatus.Running, 0.0, 0)],
      workers := map[1 := FIRST, 3 := StepKey(0, 2)], locks := map[0 := Handler(3)])
    ensures Enabled(inside, HandlerCommit(3, true, 0.0, true))
    ensures Next(inside, HandlerCommit(3, true, 0.0, true)) == Hurried()
  {
    var h := HandleStep(inside, StepKey(0, 2), true, 0.0);
    assert h.queue == inside.queue && h.enrollments == Hurried().enrollments && h.log == Hurried().log;
    assert Committed(h, 3, StepKey(0, 2), true).queue == Hurried().queue;
    assert Committed(h, 3, StepKey(0, 2), true).workers == Hurried().workers;
  }

  // ------------------------------------------------------------------ the lost cursor

  /** `n` contacts enrolled at a rung that is due at once. */
  ghost function Crowd(n: nat): World {
    Empty([0.0], 0.0).(
      enrollments := seq(n, (i: nat) => Enrollment(i, 1, Some(0.0), None, Active)),
      queue := map k | 0 <= k < n :: StepKey(k, 1) := Action(ActionStatus.Pending, 0.0, k),
      log := seq(n, (i: nat) => Rung(i, 0, 0.0, false, Some(0.0))))
  }

  lemma CrowdGrows(n: nat)
    ensures Enabled(Crowd(n), DoSubscribe(n, 0.0)) && Next(Crowd(n), DoSubscribe(n, 0.0)) == Crowd(n + 1)
  {
    var w := Crowd(n);
    assert ActiveOf(w.enrollments, n) == n by {
      assert forall i | 0 <= i < n :: w.enrollments[i].contact == i;
    }
    var t := Next(w, DoSubscribe(n, 0.0));
    assert t.enrollments == Crowd(n + 1).enrollments;
    assert t.queue == Crowd(n + 1).queue;
    assert t.log == Crowd(n + 1).log;
  }

  lemma {:induction false} CrowdIsReached(n: nat)
    ensures Reached(Empty([0.0], 0.0), Crowd(n))
  {
    if n == 0 {
      assert Crowd(0) == Empty([0.0], 0.0);
      Starts(Empty([0.0], 0.0));
    } else {
      CrowdIsReached(n - 1);
      CrowdGrows(n - 1);
      hide *;
      OneMore(Empty([0.0], 0.0), Crowd(n - 1), DoSubscribe(n - 1, 0.0), Crowd(n));
    }
  }

  /**
   The sweep's cursor can be lost: fifty contacts are due, the last of them is deleted, and
   the first batch, a full one, ends with the enrollment it retires.
   */
  lemma CursorCanBeLost()
    ensures exists w: World, table: seq<nat> ::
              Reached(Empty([0.0], 0.0), w) && DueIndex(w.enrollments, w.clock, table) && CursorLost(w, table, 1)
  {
    var w := Crowd(50);
    CrowdIsReached(50);
    var t := Next(w, DeleteContact(49));
    OneMore(Empty([0.0], 0.0), w, DeleteContact(49), t);
    var table: seq<nat> := seq(50, (i: nat) => i);
    forall id | 0 <= id < 50 ensures id in table && t.enrollments[id] == Enrollment(id, 1, Some(0.0), None, Active) {
      assert table[id] == id;
    }
    assert DueIndex(t.enrollments, t.clock, table);
    assert t.enrollments[table[49]].contact in t.gone;
  }
}
