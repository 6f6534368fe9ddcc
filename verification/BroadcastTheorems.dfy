/** The main results about a broadcast, over every legal run from a draft. */
module BroadcastTheorems {
  import opened Queue
  import opened Broadcast
  import opened BroadcastFacts
  import opened BroadcastSafety
  import opened BroadcastCounters

  /** A contact has exactly one recipient row. */
  ghost predicate ExactlyOneRow(rows: seq<Recipient>, contact: nat) {
    exists i :: 0 <= i < |rows| && rows[i].contact == Some(contact)
                && forall j | 0 <= j < |rows| && rows[j].contact == Some(contact) :: j == i
  }

  lemma UniqueMeansOne(rows: seq<Recipient>, contact: nat)
    requires UniqueContacts(rows) && HasRow(rows, contact)
    ensures ExactlyOneRow(rows, contact)
  {
    var i :| 0 <= i < |rows| && rows[i].contact == Some(contact);
    forall j | 0 <= j < |rows| && rows[j].contact == Some(contact) ensures j == i {
    }
  }

  /** What the invariant says of a finished broadcast. */
  lemma SentMeansComplete(stable: set<nat>, s: State)
    requires Inv(stable, s) && s.status.Sent?
    ensures !AnyPending(s.rows) && forall c | c in stable :: ExactlyOneRow(s.rows, c)
  {
    forall c | c in stable ensures ExactlyOneRow(s.rows, c) { UniqueMeansOne(s.rows, c); }
  }

  /**
   No truncation.  However a run interleaves claims, chunks, re-runs, permanent
   failures, sends, reconciles, settles and erasures of other people, and however the
   rest of the audience changes between two chunks: a broadcast marked sent has one
   row for every contact that was in the audience throughout, and nothing pending.
   */
  lemma NoTruncation(stable: set<nat>, steps: seq<Step>)
    requires Legal(stable, DRAFT, steps)
    ensures var s := Exec(stable, DRAFT, steps);
            s.status.Sent? ==> !AnyPending(s.rows) && forall c | c in stable :: ExactlyOneRow(s.rows, c)
  {
    var s := Exec(stable, DRAFT, steps);
    RunKeeps(stable, DRAFT, steps);
    if s.status.Sent? { SentMeansComplete(stable, s); }
  }

  // ------------------------------------------------------------------ finished once

  /** What a finished broadcast never changes: its status, its announcements, and its stats if it was sent. */
  ghost predicate Absorbed(s: State, t: State) {
    && t.status == s.status && t.announced == s.announced
    && (s.status.Sent? ==> t.stats == s.stats)
  }

  lemma {:induction false} FinishedIsAbsorbing(stable: set<nat>, s: State, steps: seq<Step>)
    requires Inv(stable, s) && (s.status.Sent? || s.status.Cancelled?) && Legal(stable, s, steps)
    ensures Absorbed(s, Exec(stable, s, steps))
    decreases |steps|
  {
    if steps != [] {
      var next := Next(stable, s, steps[0]);
      StepKeeps(stable, s, steps[0]);
      assert Absorbed(s, next);
      FinishedIsAbsorbing(stable, next, steps[1..]);
    }
  }

  /** `broadcast.finished` is emitted once by a broadcast that is sent, never by any other. */
  lemma FinishedOnce(stable: set<nat>, before: seq<Step>, after: seq<Step>)
    requires Legal(stable, DRAFT, before) && Legal(stable, Exec(stable, DRAFT, before), after)
    ensures var s := Exec(stable, DRAFT, before);
            var t := Exec(stable, s, after);
            && s.announced == (if s.status.Sent? then 1 else 0)
            && (s.status.Sent? ==> t.status.Sent? && t.announced == 1)
            && (s.status.Cancelled? ==> t.status.Cancelled? && t.announced == 0)
  {
    RunKeeps(stable, DRAFT, before);
    var s := Exec(stable, DRAFT, before);
    if s.status.Sent? || s.status.Cancelled? { FinishedIsAbsorbing(stable, s, after); }
  }

  /** With nothing left in the queue to run and no failed chunk, one sweep finishes a sending broadcast. */
  lemma NeverStuck(stable: set<nat>, s: State)
    requires Inv(stable, s) && s.status.Sending?
    requires forall k | k in s.queue && k.FanoutKey? :: !s.queue[k].status.Owed()
    requires forall k | k in s.queue && k.SendKey? :: !s.queue[k].status.Alive()
    ensures var t := Sweep(s);
            && t.status.Sent? && t.announced == 1
            && |t.rows| == |s.rows|
            && forall i | 0 <= i < |s.rows| ::
                 t.rows[i] == if s.rows[i].status.Pending?
                              then s.rows[i].(status := RecipientStatus.Failed, reason := RETRIES_EXHAUSTED)
                              else s.rows[i]
  {
  }

  /** The other half: a failed chunk keeps a broadcast out of `sent`, sweep after sweep. */
  lemma FailedChunkBlocksTheSweep(s: State, k: Key)
    requires s.status.Sending? && k in s.queue && k.FanoutKey? && s.queue[k].status.Failed?
    ensures Sweep(s).status.Sending? && Sweep(s).announced == s.announced
  {
    var r := Reconcile(s);
    assert k in r.queue;
  }

  ghost predicate FailedChunk(s: State) {
    exists k :: k in s.queue && k.FanoutKey? && s.queue[k].status.Failed?
  }

  /**
   Never stuck.  After any run that leaves no chunk and no send pending or running, one
   sweep finishes a sending broadcast exactly when no chunk has failed; finished, it has
   reached everybody once and is announced once, otherwise it goes on waiting unannounced.
   */
  lemma QuietSweepFinishesIff(stable: set<nat>, steps: seq<Step>)
    requires Legal(stable, DRAFT, steps)
    requires var s := Exec(stable, DRAFT, steps);
             s.status.Sending? && forall k | k in s.queue && !k.RetryKey? :: !s.queue[k].status.Alive()
    ensures var s := Exec(stable, DRAFT, steps);
            var t := Sweep(s);
            && (t.status.Sent? <==> !FailedChunk(s))
            && (if t.status.Sent?
                then t.announced == 1 && !AnyPending(t.rows) && forall c | c in stable :: ExactlyOneRow(t.rows, c)
                else t.status.Sending? && t.announced == 0)
  {
    var s := Exec(stable, DRAFT, steps);
    RunKeeps(stable, DRAFT, steps);
    FinishedOnce(stable, steps, []);
    if FailedChunk(s) {
      var k :| k in s.queue && k.FanoutKey? && s.queue[k].status.Failed?;
      FailedChunkBlocksTheSweep(s, k);
    } else {
      NeverStuck(stable, s);
      ReconcileKeeps(stable, s);
      SettleKeeps(stable, Reconcile(s), None);
      SentMeansComplete(stable, Sweep(s));
    }
  }

  // ------------------------------------------------------------------ cancellation

  /** After a cancel no row is added or resumed; the one change left is an erasure freezing a failed send. */
  ghost predicate Halted(s: State, t: State) {
    && t.status.Cancelled? && |t.rows| == |s.rows| && t.announced == s.announced
    && forall i | 0 <= i < |s.rows| ::
         t.rows[i].status == s.rows[i].status || (s.rows[i].status.Sent? && t.rows[i].status.Failed?)
  }

  lemma CancelledStepHalts(stable: set<nat>, s: State, step: Step)
    requires Inv(stable, s) && s.status.Cancelled? && Enabled(stable, s, step)
    ensures Halted(s, Next(stable, s, step))
  {
    if step.DoSend? {
      var row := s.queue[SendKey(step.contact)].target;
      assert row < |s.rows| ==> !s.rows[row].status.Pending?;
    }
  }

  lemma {:induction false} CancelledRunHalts(stable: set<nat>, s: State, steps: seq<Step>)
    requires Inv(stable, s) && s.status.Cancelled? && Legal(stable, s, steps)
    ensures Halted(s, Exec(stable, s, steps))
    decreases |steps|
  {
    if steps != [] {
      StepKeeps(stable, s, steps[0]);
      CancelledStepHalts(stable, s, steps[0]);
      CancelledRunHalts(stable, Next(stable, s, steps[0]), steps[1..]);
    }
  }

  /**
   Cancellation is final.  Whatever was already claimed, nothing becomes pending or
   sent after a cancel, and no recipient recorded as cancelled has a retry that can
   still run.
   */
  lemma CancellationIsFinal(stable: set<nat>, before: seq<Step>, after: seq<Step>)
    requires Legal(stable, DRAFT, before) && Exec(stable, DRAFT, before).status.Live()
    requires Legal(stable, Cancel(Exec(stable, DRAFT, before)), after)
    ensures var s := Cancel(Exec(stable, DRAFT, before));
            var t := Exec(stable, s, after);
            && !AnyPending(t.rows) && Halted(s, t) && t.announced == 0
            && forall i, k | 0 <= i < |t.rows| && t.rows[i].status.Cancelled? && k in t.queue && k.RetryKey?
                             && t.rows[i].message == Some(k.message) :: !t.queue[k].status.Alive()
  {
    RunKeeps(stable, DRAFT, before);
    var s := Exec(stable, DRAFT, before);
    CancelKeeps(stable, s);
    RunKeeps(stable, Cancel(s), after);
    CancelledRunHalts(stable, Cancel(s), after);
  }

  /** A retry that has not been claimed yet. */
  ghost predicate RetryWaits(s: State, m: nat) {
    exists k :: k in s.queue && k.RetryKey? && k.message == m && s.queue[k].status.Pending?
  }

  /** A sent row is withdrawn exactly when its message is still queued and its retry unclaimed. */
  lemma CancelWithdrawsOnlyWaitingRetries(stable: set<nat>, s: State, i: nat)
    requires Inv(stable, s) && i < |s.rows| && s.rows[i].status.Sent?
    ensures Cancel(s).rows[i].status.Cancelled? <==>
            && MessageOf(s.rows[i], s.messages) == Some(Queued)
            && RetryWaits(s, s.rows[i].message.value)
    ensures !Cancel(s).rows[i].status.Cancelled? ==> Cancel(s).rows[i] == s.rows[i]
  {
    if s.rows[i].message.Some? {
      var m := s.rows[i].message.value;
      if RetryWaits(s, m) {
        var k :| k in s.queue && k.RetryKey? && k.message == m && s.queue[k].status.Pending?;
        assert s.rows[i].status.Sent? && s.rows[i].message == Some(m);
      }
    }
  }

  /** A recipient whose retry a worker already holds stays sent, and so does that retry's row. */
  lemma RunningRetryStands(stable: set<nat>, s: State, i: nat, k: Key)
    requires Inv(stable, s) && i < |s.rows| && s.rows[i].status.Sent?
    requires k in s.queue && k.RetryKey? && s.rows[i].message == Some(k.message) && s.queue[k].status.Running?
    ensures Cancel(s).rows[i] == s.rows[i] && Cancel(s).queue[k] == s.queue[k]
  {
    CancelWithdrawsOnlyWaitingRetries(stable, s, i);
    assert forall l | l in s.queue && l.RetryKey? && l.message == k.message && s.queue[l].status.Alive() :: l == k;
  }

  // ------------------------------------------------------------------ frozen and live figures agree

  predicate SameVerdicts(a: Counters, b: Counters) {
    && a.queued == b.queued && a.pending == b.pending && a.sent == b.sent
    && a.failed == b.failed && a.skipped == b.skipped && a.cancelled == b.cancelled
  }

  /** Erasures only, in any number and order. */
  ghost predicate ErasuresOnly(steps: seq<Step>) {
    forall i | 0 <= i < |steps| :: steps[i].DoErase?
  }

  /** Once sent, erasing anybody leaves the live recount equal to the figures it already showed. */
  lemma {:induction false} ErasedCountersReconcile(stable: set<nat>, s: State, steps: seq<Step>)
    requires Inv(stable, s) && s.status.Sent? && Legal(stable, s, steps) && ErasuresOnly(steps)
    ensures var t := Exec(stable, s, steps);
            && t.stats == s.stats
            && SameVerdicts(Tally(s.rows, s.messages), Tally(t.rows, t.messages))
    decreases |steps|
  {
    if steps != [] {
      var next := Next(stable, s, steps[0]);
      assert steps[0].DoErase?;
      StepKeeps(stable, s, steps[0]);
      ErasureKeepsCounters(stable, s, steps[0].contact);
      NothingPendingToMove(s.rows, steps[0].contact);
      ErasedCountersReconcile(stable, next, steps[1..]);
    }
  }

  /** The snapshot a settle freezes goes on matching the live recount, whoever is erased afterwards. */
  lemma FrozenStatsReconcile(stable: set<nat>, s: State, steps: seq<Step>)
    requires Inv(stable, s) && s.status.Sending? && Settle(s, None).status.Sent?
    requires Legal(stable, Settle(s, None), steps) && ErasuresOnly(steps)
    ensures var t := Exec(stable, Settle(s, None), steps);
            t.stats.Some? && SameVerdicts(t.stats.value, Tally(t.rows, t.messages))
  {
    SettleKeeps(stable, s, None);
    ErasedCountersReconcile(stable, Settle(s, None), steps);
  }
}
