/**
 Safety of one broadcast over every interleaving of claims, chunk runs, re-runs,
 permanent failures, sends, retries, cancels, sweeps and erasures.
 */
module BroadcastSafety {
  import opened Queue
  import opened Broadcast
  import opened BroadcastFacts

  // ------------------------------------------------------------------ the invariant

  /** An owed chunk strictly between two points of the audience. */
  predicate Bridge(queue: Table, k: Key, from: int, contact: nat) {
    k in queue && k.FanoutKey? && queue[k].status.Owed() && from < k.cursor < contact
  }

  ghost predicate Bridged(queue: Table, from: int, contact: nat) {
    exists k :: Bridge(queue, k, from, contact)
  }

  /** A finished chunk leaves behind, for every contact past its cursor, a row or an owed later chunk. */
  ghost predicate Covered(stable: set<nat>, s: State) {
    && FanoutKey(START) in s.queue
    && forall k, c | k in s.queue && k.FanoutKey? && !s.queue[k].status.Owed() && c in stable && k.cursor < c
                     && !HasRow(s.rows, c) :: Bridged(s.queue, k.cursor, c)
  }

  /** A send row names the recipient it was armed for, unless that contact has been erased since. */
  ghost predicate Targets(s: State) {
    forall k | k in s.queue && k.SendKey? ::
      && s.queue[k].target < |s.rows|
      && (s.rows[s.queue[k].target].contact.Some? ==> s.rows[s.queue[k].target].contact == Some(k.contact))
  }

  /** A row that still waits has a contact and no message. */
  ghost predicate Named(s: State) {
    forall i | 0 <= i < |s.rows| && s.rows[i].status.Pending? :: s.rows[i].contact.Some? && s.rows[i].message.None?
  }

  ghost predicate Finished(stable: set<nat>, s: State) {
    && (s.status.Sent? ==> !AnyPending(s.rows) && forall c | c in stable :: HasRow(s.rows, c))
    && (s.status.Cancelled? ==> !AnyPending(s.rows))
    && (s.announced == if s.status.Sent? then 1 else 0)
  }

  /** Every message belongs to at most one recipient row. */
  ghost predicate Owners(s: State) {
    && (forall i | 0 <= i < |s.rows| && s.rows[i].message.Some? :: s.rows[i].message.value < |s.messages|)
    && (forall i, j | 0 <= i < j < |s.rows| && s.rows[i].message.Some? :: s.rows[i].message != s.rows[j].message)
    && (forall k | k in s.queue && k.RetryKey? :: k.message < |s.messages|)
  }

  /** A message has at most one retry that can still run. */
  ghost predicate OneRetry(s: State) {
    forall k, l | k in s.queue && l in s.queue && k.RetryKey? && l.RetryKey? && k.message == l.message
                  && s.queue[k].status.Alive() && s.queue[l].status.Alive() :: k == l
  }

  /** No recipient recorded as cancelled has a retry that can still run. */
  ghost predicate Stopped(s: State) {
    forall i, k | 0 <= i < |s.rows| && k in s.queue && k.RetryKey? && s.rows[i].status.Cancelled?
                  && s.rows[i].message == Some(k.message) :: !s.queue[k].status.Alive()
  }

  ghost predicate Inv(stable: set<nat>, s: State) {
    && (s.status.Draft? ==> s == DRAFT.(stats := s.stats))
    && UniqueContacts(s.rows) && Targets(s) && Named(s)
    && (s.status.Live() ==> Covered(stable, s))
    && Finished(stable, s)
    && Owners(s) && OneRetry(s) && Stopped(s)
  }

  // ------------------------------------------------------------------ settling

  lemma SettleKeeps(stable: set<nat>, s: State, except: Option<Key>)
    requires Inv(stable, s)
    requires except.Some? ==> s.status.Live() && except.value.FanoutKey?
                              && forall c | c in stable && c > except.value.cursor :: HasRow(s.rows, c)
    ensures Inv(stable, Settle(s, except))
  {
    if Settle(s, except) != s {
      forall c | c in stable ensures HasRow(s.rows, c) {
        BridgeIsOutstanding(s.queue, START, c, except);
      }
    }
  }

  lemma BridgeIsOutstanding(queue: Table, from: int, contact: nat, except: Option<Key>)
    ensures Bridged(queue, from, contact) && (except.Some? && except.value.FanoutKey? ==> contact <= except.value.cursor)
            ==> FanoutOutstanding(queue, except)
  {
    if Bridged(queue, from, contact) {
      var k :| Bridge(queue, k, from, contact);
      assert k in queue;
    }
  }

  // ------------------------------------------------------------------ fanout

  /** After a chunk's work, whatever it left unexpanded is bridged by an owed later chunk. */
  lemma FanoutBridges(stable: set<nat>, s: State, t: State, cursor: int, audience: seq<Candidate>, size: nat, contact: nat)
    requires Covered(stable, s) && contact in stable && contact > cursor && size > 0
    requires Ascending(audience) && Includes(audience, contact)
    requires !HasRow(t.rows, contact) && !HasRow(s.rows, contact)
    requires forall c | c in Chunk(audience, cursor, size) :: HasRow(t.rows, c.contact)
    requires forall k | k in s.queue :: k in t.queue && (k != FanoutKey(cursor) ==> t.queue[k] == s.queue[k])
    requires var chunk := Chunk(audience, cursor, size);
             |chunk| == size ==> && FanoutKey(chunk[size - 1].contact) in t.queue
                                 && (FanoutKey(chunk[size - 1].contact) !in s.queue
                                     ==> t.queue[FanoutKey(chunk[size - 1].contact)].status.Owed())
    ensures Bridged(t.queue, cursor, contact)
  {
    var chunk := Chunk(audience, cursor, size);
    ChunkCovers(audience, cursor, size, contact);
    var next := FanoutKey(chunk[size - 1].contact);
    if t.queue[next].status.Owed() {
      assert Bridge(t.queue, next, cursor, contact);
    } else {
      var k :| Bridge(s.queue, k, next.cursor, contact);
      assert Bridge(t.queue, k, cursor, contact);
    }
  }

  /** The states a fanout run passes through before it settles. */
  function Expanded(s: State, cursor: int, audience: seq<Candidate>, size: nat, now: real, rate: real): State
    requires rate > 0.0 && size > 0
  {
    var started := if s.status.Scheduled?
                   then s.(status := BroadcastStatus.Sending,
                           startedAt := if s.startedAt.Some? then s.startedAt else Some(now))
                   else s;
    var chunk := Chunk(audience, cursor, size);
    var written := if chunk == [] then started else WriteChunk(started, chunk, now, rate);
    var counted := written.(stats := Some(Tally(written.rows, written.messages)));
    if |chunk| == size
    then counted.(queue := Enqueue(counted.queue, FanoutKey(chunk[|chunk| - 1].contact), now, 0))
    else counted
  }

  /** What expanding a chunk does to the rows and the queue. */
  lemma ExpandedFacts(s: State, cursor: int, audience: seq<Candidate>, size: nat, now: real, rate: real)
    requires rate > 0.0 && size > 0
    ensures var t := Expanded(s, cursor, audience, size, now, rate);
            var chunk := Chunk(audience, cursor, size);
            && s.rows <= t.rows
            && t.messages == s.messages && t.announced == s.announced
            && (forall i | |s.rows| <= i < |t.rows| :: Fresh(t.rows[i]))
            && (forall c | c in chunk :: HasRow(t.rows, c.contact))
            && (UniqueContacts(s.rows) ==> UniqueContacts(t.rows))
            && (forall k | k in s.queue :: k in t.queue && t.queue[k] == s.queue[k])
            && (forall k | k in t.queue && k !in s.queue ::
                  && t.queue[k].status == ActionStatus.Pending
                  && !k.RetryKey?
                  && (k.SendKey? ==> t.queue[k].target < |t.rows| && t.rows[t.queue[k].target].contact == Some(k.contact)))
            && (|chunk| == size ==> FanoutKey(chunk[size - 1].contact) in t.queue)
  {
    hide UniqueContacts, HasRow, NotSkipped, PendingAmong, InsertMissing, Arm;
    var chunk := Chunk(audience, cursor, size);
    if chunk != [] {
      InsertMissingFacts(s.rows, chunk);
      var rows := InsertMissing(s.rows, chunk);
      var started := if s.startedAt.Some? then s.startedAt.value else now;
      ArmFacts(s.queue, rows, chunk, NotSkipped(rows) - PendingAmong(rows, chunk), started, rate);
    }
  }

  lemma ExpandedKeeps(stable: set<nat>, s: State, cursor: int, audience: seq<Candidate>, size: nat, now: real, rate: real)
    requires Inv(stable, s) && s.status.Live()
    requires Enabled(stable, s, DoFanout(cursor, audience, size, now, rate, true))
    ensures Inv(stable, Expanded(s, cursor, audience, size, now, rate))
    ensures forall c | c in stable && c > cursor && !HasRow(Expanded(s, cursor, audience, size, now, rate).rows, c) ::
              && Bridged(Expanded(s, cursor, audience, size, now, rate).queue, cursor, c)
              && |Chunk(audience, cursor, size)| == size
  {
    hide Chunk, Tally, InsertMissing, Arm, NotSkipped, PendingAmong, UniqueContacts, HasRow;
    var t := Expanded(s, cursor, audience, size, now, rate);
    ExpandedFacts(s, cursor, audience, size, now, rate);
    forall c | c in stable && HasRow(s.rows, c) ensures HasRow(t.rows, c) {
      RowsOnlyGrow(s.rows, t.rows, c);
    }
    forall c | c in stable && c > cursor && !HasRow(t.rows, c)
      ensures Bridged(t.queue, cursor, c) && |Chunk(audience, cursor, size)| == size
    {
      ChunkCovers(audience, cursor, size, c);
      FanoutBridges(stable, s, t, cursor, audience, size, c);
    }
    forall k, c | k in t.queue && k.FanoutKey? && !t.queue[k].status.Owed() && c in stable && k.cursor < c
                  && !HasRow(t.rows, c)
      ensures Bridged(t.queue, k.cursor, c)
    {
      var b :| Bridge(s.queue, b, k.cursor, c);
      assert Bridge(t.queue, b, k.cursor, c);
    }
    assert Owners(t) && OneRetry(t) && Stopped(t);
    assert Targets(t);
  }

  /** Marking a chunk done is safe once everything past its cursor is expanded or bridged. */
  lemma MarkFanoutKeeps(stable: set<nat>, s: State, cursor: int)
    requires Inv(stable, s) && FanoutKey(cursor) in s.queue
    requires s.status.Live() ==>
               forall c | c in stable && c > cursor && !HasRow(s.rows, c) :: Bridged(s.queue, cursor, c)
    requires !s.status.Draft?
    ensures Inv(stable, s.(queue := Mark(s.queue, FanoutKey(cursor), ActionStatus.Done)))
  {
    var t := s.(queue := Mark(s.queue, FanoutKey(cursor), ActionStatus.Done));
    if s.status.Live() {
      forall k, c | k in t.queue && k.FanoutKey? && !t.queue[k].status.Owed() && c in stable && k.cursor < c
                    && !HasRow(t.rows, c)
        ensures Bridged(t.queue, k.cursor, c)
      {
        if k == FanoutKey(cursor) {
          var b :| Bridge(s.queue, b, cursor, c);
          assert Bridge(t.queue, b, cursor, c);
        } else {
          var b :| Bridge(s.queue, b, k.cursor, c);
          if b == FanoutKey(cursor) {
            var d :| Bridge(s.queue, d, cursor, c);
            assert Bridge(t.queue, d, k.cursor, c);
          } else {
            assert Bridge(t.queue, b, k.cursor, c);
          }
        }
      }
    }
  }

  lemma FanoutKeeps(stable: set<nat>, s: State, step: Step)
    requires step.DoFanout? && Inv(stable, s) && Enabled(stable, s, step)
    ensures Inv(stable, Next(stable, s, step))
  {
    var DoFanout(cursor, audience, size, now, rate, marked) := step;
    var worked := Fanout(s, cursor, audience, size, now, rate);
    if s.status.Live() {
      var t := Expanded(s, cursor, audience, size, now, rate);
      ExpandedFacts(s, cursor, audience, size, now, rate);
      ExpandedKeeps(stable, s, cursor, audience, size, now, rate);
      if |Chunk(audience, cursor, size)| != size {
        SettleKeeps(stable, t, Some(FanoutKey(cursor)));
      }
    }
    if marked { MarkFanoutKeeps(stable, worked, cursor); }
  }

  // ------------------------------------------------------------------ sends and retries

  /** Replacing one row by one that still has the same contact leaves every contact covered. */
  lemma SameContacts(rows: seq<Recipient>, more: seq<Recipient>)
    requires |rows| == |more| && forall i | 0 <= i < |rows| :: rows[i].contact == more[i].contact
    ensures forall c: nat :: HasRow(rows, c) <==> HasRow(more, c)
    ensures UniqueContacts(rows) ==> UniqueContacts(more)
  {
    forall c: nat ensures HasRow(rows, c) <==> HasRow(more, c) {
      if HasRow(rows, c) { var i :| 0 <= i < |rows| && rows[i].contact == Some(c); assert more[i].contact == Some(c); }
      if HasRow(more, c) { var i :| 0 <= i < |more| && more[i].contact == Some(c); assert rows[i].contact == Some(c); }
    }
  }

  /** Fanout rows are untouched, or owed as before, so coverage carries over. */
  lemma CoverageCarries(stable: set<nat>, s: State, t: State)
    requires Covered(stable, s)
    requires forall c | c in stable :: HasRow(s.rows, c) ==> HasRow(t.rows, c)
    requires forall k | k in s.queue && k.FanoutKey? :: k in t.queue && t.queue[k].status.Owed() == s.queue[k].status.Owed()
    requires forall k | k in t.queue && k.FanoutKey? :: k in s.queue
    ensures Covered(stable, t)
  {
    forall k, c | k in t.queue && k.FanoutKey? && !t.queue[k].status.Owed() && c in stable && k.cursor < c
                  && !HasRow(t.rows, c)
      ensures Bridged(t.queue, k.cursor, c)
    {
      var b :| Bridge(s.queue, b, k.cursor, c);
      assert Bridge(t.queue, b, k.cursor, c);
    }
  }

  /** The new message belongs to this row alone, and has at most the retry just armed. */
  lemma DeliverKeepsMessages(s: State, row: nat, outcome: SendOutcome)
    requires Owners(s) && OneRetry(s) && Stopped(s) && row < |s.rows| && s.rows[row].message.None?
    ensures Owners(Deliver(s, row, outcome)) && OneRetry(Deliver(s, row, outcome)) && Stopped(Deliver(s, row, outcome))
  {
  }

  lemma DeliverKeepsRows(stable: set<nat>, s: State, row: nat, outcome: SendOutcome)
    requires UniqueContacts(s.rows) && Targets(s) && Named(s) && (s.status.Live() ==> Covered(stable, s))
    requires row < |s.rows| && s.rows[row].status.Pending?
    ensures var t := Deliver(s, row, outcome);
            && UniqueContacts(t.rows) && Targets(t) && Named(t) && (t.status.Live() ==> Covered(stable, t))
            && (forall c: nat :: HasRow(s.rows, c) <==> HasRow(t.rows, c))
  {
    hide HasRow, UniqueContacts, Covered;
    var t := Deliver(s, row, outcome);
    SameContacts(s.rows, t.rows);
    if s.status.Live() { CoverageCarries(stable, s, t); }
  }

  lemma DeliverKeeps(stable: set<nat>, s: State, row: nat, outcome: SendOutcome)
    requires Inv(stable, s) && row < |s.rows| && s.rows[row].status.Pending?
    ensures Inv(stable, Deliver(s, row, outcome))
  {
    hide HasRow, UniqueContacts, Covered, Targets, Owners, OneRetry, Stopped;
    DeliverKeepsRows(stable, s, row, outcome);
    DeliverKeepsMessages(s, row, outcome);
  }

  /** Moving a send or retry row to a status that cannot run any more breaks nothing. */
  lemma RetireKeeps(stable: set<nat>, s: State, key: Key)
    requires Inv(stable, s) && key in s.queue && !key.FanoutKey?
    ensures Inv(stable, s.(queue := Mark(s.queue, key, ActionStatus.Done)))
  {
    if s.status.Live() { CoverageCarries(stable, s, s.(queue := Mark(s.queue, key, ActionStatus.Done))); }
  }

  lemma RefuseKeeps(stable: set<nat>, s: State, row: nat, reason: string)
    requires Inv(stable, s) && row < |s.rows| && s.rows[row].status.Pending?
    ensures Inv(stable, s.(rows := s.rows[row := Outcome(s.rows[row], RecipientStatus.Skipped, reason, None)]))
  {
    var t := s.(rows := s.rows[row := Outcome(s.rows[row], RecipientStatus.Skipped, reason, None)]);
    SameContacts(s.rows, t.rows);
    if s.status.Live() { CoverageCarries(stable, s, t); }
  }

  lemma SendKeeps(stable: set<nat>, s: State, step: Step)
    requires step.DoSend? && Inv(stable, s) && Enabled(stable, s, step)
    ensures Inv(stable, Next(stable, s, step))
  {
    var DoSend(contact, env, marked) := step;
    var row := s.queue[SendKey(contact)].target;
    var worked := Send(s, row, env);
    if row < |s.rows| && s.rows[row].status.Pending? {
      if SendVerdict(env).Some? {
        RefuseKeeps(stable, s, row, SendVerdict(env).value);
        SettleKeeps(stable, s.(rows := s.rows[row := Outcome(s.rows[row], RecipientStatus.Skipped, SendVerdict(env).value, None)]), None);
      } else {
        DeliverKeeps(stable, s, row, env.outcome);
        SettleKeeps(stable, Deliver(s, row, env.outcome), None);
      }
    }
    assert Inv(stable, worked);
    if marked && SendKey(contact) in worked.queue { RetireKeeps(stable, worked, SendKey(contact)); }
  }

  /** A message whose retries have all stopped may be given one more. */
  lemma RearmKeeps(stable: set<nat>, s: State, message: nat, due: nat, runAt: real)
    requires Inv(stable, s) && message < |s.messages| && !s.status.Draft?
    requires forall k | k in s.queue && k.RetryKey? && k.message == message :: !s.queue[k].status.Alive()
    requires forall i | 0 <= i < |s.rows| && s.rows[i].message == Some(message) :: !s.rows[i].status.Cancelled?
    ensures Inv(stable, s.(queue := Enqueue(s.queue, RetryKey(message, due), runAt, 0)))
  {
    if s.status.Live() { CoverageCarries(stable, s, s.(queue := Enqueue(s.queue, RetryKey(message, due), runAt, 0))); }
  }

  lemma RetryKeeps(stable: set<nat>, s: State, step: Step)
    requires step.DoRetry? && Inv(stable, s) && Enabled(stable, s, step)
    ensures Inv(stable, Next(stable, s, step))
  {
    var DoRetry(m, due, retry) := step;
    var key := RetryKey(m, due);
    var done := s.(queue := Mark(s.queue, key, ActionStatus.Done));
    RetireKeeps(stable, s, key);
    if m < |s.messages| && s.messages[m].Some? && s.messages[m].value.status.Queued? {
      match retry
      case Finished(status, error) =>
        var t := done.(messages := s.messages[m := Some(Message(status, error))]);
        if s.status.Live() { CoverageCarries(stable, done, t); }
      case Rearmed(next, runAt) =>
        RearmKeeps(stable, done, m, next, runAt);
    }
  }

  // ------------------------------------------------------------------ cancelling and sweeping

  /** The rows a cancel withdraws are exactly those whose one live retry it has just stopped. */
  lemma CancelKeepsMessages(s: State)
    requires Owners(s) && OneRetry(s) && Stopped(s) && Named(s)
    ensures Owners(Cancel(s)) && OneRetry(Cancel(s)) && Stopped(Cancel(s))
  {
    hide Tally;
    var t := Cancel(s);
    forall i, k | 0 <= i < |t.rows| && k in t.queue && k.RetryKey? && t.rows[i].status.Cancelled?
                  && t.rows[i].message == Some(k.message)
      ensures !t.queue[k].status.Alive()
    {
      if !s.rows[i].status.Cancelled? {
        assert Stoppable(s, k.message);
        var l :| l in s.queue && l.RetryKey? && l.message == k.message && s.queue[l].status.Pending?;
      }
    }
  }

  lemma CancelKeeps(stable: set<nat>, s: State)
    requires Inv(stable, s) && s.status.Live()
    ensures Inv(stable, Cancel(s))
  {
    hide Tally, Owners, OneRetry, Stopped, Stoppable, UniqueContacts, HasRow, Covered;
    SameContacts(s.rows, Cancel(s).rows);
    CancelKeepsMessages(s);
  }

  lemma ReconcileKeeps(stable: set<nat>, s: State)
    requires Inv(stable, s) && s.status.Sending?
    ensures Inv(stable, Reconcile(s))
  {
    var t := Reconcile(s);
    SameContacts(s.rows, t.rows);
    CoverageCarries(stable, s, t);
  }

  // ------------------------------------------------------------------ erasure

  lemma EraseKeepsMessages(s: State, contact: nat)
    requires Owners(s) && OneRetry(s) && Stopped(s)
    ensures Owners(Erase(s, contact)) && OneRetry(Erase(s, contact)) && Stopped(Erase(s, contact))
  {
    hide Owns, FrozenRow, NamesContact;
  }

  lemma EraseKeepsRows(s: State, contact: nat)
    requires UniqueContacts(s.rows) && Targets(s) && Named(s)
    ensures UniqueContacts(Erase(s, contact).rows) && Targets(Erase(s, contact)) && Named(Erase(s, contact))
  {
    hide Owns, NamesContact;
  }

  lemma EraseKeepsCoverage(stable: set<nat>, s: State, contact: nat)
    requires contact !in stable
    ensures forall c | c in stable && HasRow(s.rows, c) :: HasRow(Erase(s, contact).rows, c)
    ensures Covered(stable, s) ==> Covered(stable, Erase(s, contact))
  {
    hide Covered, FrozenRow;
    var t := Erase(s, contact);
    forall c | c in stable && HasRow(s.rows, c) ensures HasRow(t.rows, c) {
      var i :| 0 <= i < |s.rows| && s.rows[i].contact == Some(c);
      assert t.rows[i].contact == Some(c);
    }
    if Covered(stable, s) { CoverageCarries(stable, s, t); }
  }

  lemma EraseKeeps(stable: set<nat>, s: State, contact: nat)
    requires Inv(stable, s) && contact !in stable
    ensures Inv(stable, Erase(s, contact))
  {
    hide HasRow, UniqueContacts, Covered, Targets, Owners, OneRetry, Stopped, Owns, NamesContact;
    EraseKeepsRows(s, contact);
    EraseKeepsMessages(s, contact);
    EraseKeepsCoverage(stable, s, contact);
  }

  lemma StandDownKeeps(stable: set<nat>, s: State, contact: nat)
    requires Inv(stable, s)
    ensures Inv(stable, StandDown(s, contact))
  {
    if s.status.Live() { CoverageCarries(stable, s, StandDown(s, contact)); }
  }

  // ------------------------------------------------------------------ every step, every run

  /** Scheduling, a receipt, and the queue's own moves of one row. */
  predicate QueueStep(step: Step) {
    step.DoSchedule? || step.DoClaim? || step.DoRequeue? || step.DoGiveUp? || step.DoReceipt?
  }

  lemma QueueStepKeepsMessages(stable: set<nat>, s: State, step: Step)
    requires Owners(s) && OneRetry(s) && Stopped(s) && Enabled(stable, s, step) && QueueStep(step)
    ensures Owners(Next(stable, s, step)) && OneRetry(Next(stable, s, step)) && Stopped(Next(stable, s, step))
  {
  }

  lemma ScheduleCovers(stable: set<nat>, s: State, when: real)
    requires Inv(stable, s) && s.status.Draft?
    ensures Covered(stable, Schedule(s, when))
  {
  }

  lemma QueueStepKeeps(stable: set<nat>, s: State, step: Step)
    requires Inv(stable, s) && Enabled(stable, s, step) && QueueStep(step)
    ensures Inv(stable, Next(stable, s, step))
  {
    hide UniqueContacts, Covered, Owners, OneRetry, Stopped;
    QueueStepKeepsMessages(stable, s, step);
    if step.DoSchedule? {
      ScheduleCovers(stable, s, step.when);
    } else if s.status.Live() {
      CoverageCarries(stable, s, Next(stable, s, step));
    }
  }

  lemma StepKeeps(stable: set<nat>, s: State, step: Step)
    requires Inv(stable, s) && Enabled(stable, s, step)
    ensures Inv(stable, Next(stable, s, step))
  {
    hide Inv, Settle, Cancel, Reconcile, Erase, StandDown;
    match step
    case DoFanout(_, _, _, _, _, _) => FanoutKeeps(stable, s, step);
    case DoSend(_, _, _) => SendKeeps(stable, s, step);
    case DoRetry(_, _, _) => RetryKeeps(stable, s, step);
    case DoCancel => CancelKeeps(stable, s);
    case DoSettle => SettleKeeps(stable, s, None);
    case DoReconcile => ReconcileKeeps(stable, s);
    case DoErase(contact) => EraseKeeps(stable, s, contact);
    case DoStandDown(contact) => StandDownKeeps(stable, s, contact);
    case _ => QueueStepKeeps(stable, s, step);
  }

  lemma {:induction false} RunKeeps(stable: set<nat>, s: State, steps: seq<Step>)
    requires Inv(stable, s) && Legal(stable, s, steps)
    ensures Inv(stable, Exec(stable, s, steps))
    decreases |steps|
  {
    if steps != [] {
      StepKeeps(stable, s, steps[0]);
      RunKeeps(stable, Next(stable, s, steps[0]), steps[1..]);
    }
  }
}
