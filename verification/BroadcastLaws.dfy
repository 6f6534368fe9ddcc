/**
 What the steps of a broadcast do to its rows, its queue and its messages, said of the
 columns themselves: each law holds of the state a step starts from and the one it leaves.
 */
module BroadcastLaws {
  import opened Queue
  import opened Broadcast
  import opened BroadcastFacts

  // ------------------------------------------------------------------ settling

  /** A chunk other than `except` that is waiting, running or failed. */
  ghost predicate ChunkOwed(queue: Table, except: Option<Key>) {
    exists k :: k in queue && k.FanoutKey? && Some(k) != except
                && (queue[k].status.Pending? || queue[k].status.Running? || queue[k].status.Failed?)
  }

  ghost predicate NobodyWaits(rows: seq<Recipient>) {
    forall i | 0 <= i < |rows| :: !rows[i].status.Pending?
  }

  /** From the rows and the queue as the work left them: finished, announced and frozen, or as it was. */
  ghost predicate FinishesIff(worked: State, t: State, except: Option<Key>) {
    && t.rows == worked.rows && t.queue == worked.queue && t.messages == worked.messages && t.startedAt == worked.startedAt
    && if worked.status.Sending? && NobodyWaits(worked.rows) && !ChunkOwed(worked.queue, except)
       then t.status.Sent? && t.announced == worked.announced + 1 && t.stats == Some(Tally(worked.rows, worked.messages))
       else t.status == worked.status && t.announced == worked.announced && t.stats == worked.stats
  }

  lemma SettleLaw(s: State, except: Option<Key>)
    ensures FinishesIff(s, Settle(s, except), except)
  {
    hide Tally;
    assert AnyPending(s.rows) <==> !NobodyWaits(s.rows);
    assert FanoutOutstanding(s.queue, except) <==> ChunkOwed(s.queue, except);
  }

  // ------------------------------------------------------------------ the sweep

  /** The contact's send is waiting in the queue or in a worker's hands. */
  predicate CanStillSend(queue: Table, contact: nat) {
    SendKey(contact) in queue && (queue[SendKey(contact)].status.Pending? || queue[SendKey(contact)].status.Running?)
  }

  /** Exactly the waiting recipients with nothing left to send to them are failed, and nobody else is touched. */
  ghost predicate OnlyStrandedFail(queue: Table, rows: seq<Recipient>, after: seq<Recipient>) {
    && |after| == |rows|
    && forall i | 0 <= i < |rows| ::
         after[i] == if rows[i].status.Pending? && rows[i].contact.Some? && !CanStillSend(queue, rows[i].contact.value)
                     then Recipient(rows[i].contact, RecipientStatus.Failed, "retries_exhausted", rows[i].message)
                     else rows[i]
  }

  lemma ReconcileLaw(s: State)
    ensures OnlyStrandedFail(s.queue, s.rows, Reconcile(s).rows)
    ensures Reconcile(s) == s.(rows := Reconcile(s).rows)
  {
  }

  /** The sweep spares every send that can still run, and a broadcast with one goes on sending. */
  lemma SweepSparesLiveSends(s: State, i: nat)
    requires i < |s.rows| && s.rows[i].contact.Some? && CanStillSend(s.queue, s.rows[i].contact.value)
    ensures |Sweep(s).rows| == |s.rows| && Sweep(s).rows[i] == s.rows[i] && Sweep(s).queue == s.queue
    ensures s.rows[i].status.Pending? ==> Sweep(s).status == s.status && Sweep(s).announced == s.announced
  {
    hide Tally, Abandoned;
    ReconcileLaw(s);
    SettleLaw(Reconcile(s), None);
    assert s.rows[i].status.Pending? ==> Reconcile(s).rows[i].status.Pending?;
  }

  /** A sweep as a whole: the stranded recipients failed, then finished or not. */
  lemma SweepLaw(s: State)
    ensures if s.status.Sending?
            then exists r: seq<Recipient> ::
                   OnlyStrandedFail(s.queue, s.rows, r) && FinishesIff(s.(rows := r), Sweep(s), None)
            else Sweep(s) == s
  {
    hide Tally, Abandoned;
    ReconcileLaw(s);
    SettleLaw(Reconcile(s), None);
  }

  // ------------------------------------------------------------------ sending

  /** Nothing stands against the send. */
  predicate MaySend(env: SendEnv) {
    env.contactExists && !env.connectionDisabled && env.hasIdentity && env.verdict.Allowed? && !env.suppressed
  }

  /** The code of the first thing that does, in the order they are looked at. */
  ghost predicate RefusedFor(env: SendEnv, code: string) {
    || (!env.contactExists && code == "contact_deleted")
    || (env.contactExists && env.connectionDisabled && code == "no_connection")
    || (env.contactExists && !env.connectionDisabled && !env.hasIdentity && code == "no_identity")
    || (env.contactExists && !env.connectionDisabled && env.hasIdentity && env.verdict.Denied? && code == env.verdict.code)
    || (env.contactExists && !env.connectionDisabled && env.hasIdentity && env.verdict.Allowed? && env.suppressed
        && code == "opted_out")
  }

  /** The first two hundred characters. */
  function Cut(text: string): string {
    if |text| <= 200 then text else text[..200]
  }

  /** Where one copy of a broadcast that is not cancelled ends up: `w` is `s` with the copy handled. */
  ghost predicate CopyHandled(s: State, w: State, row: nat, env: SendEnv)
    requires row < |s.rows|
  {
    var was := s.rows[row];
    && w == s.(rows := w.rows, messages := w.messages, queue := w.queue)
    && |w.rows| == |s.rows| && (forall i | 0 <= i < |s.rows| && i != row :: w.rows[i] == s.rows[i])
    && (if !MaySend(env) then
          && w.messages == s.messages && w.queue == s.queue
          && (exists code: string :: RefusedFor(env, code)
                && w.rows[row] == Recipient(was.contact, RecipientStatus.Skipped, Cut(code), was.message))
        else match env.outcome
          case NoMessage =>
            && w.messages == s.messages && w.queue == s.queue
            && w.rows[row] == Recipient(was.contact, RecipientStatus.Failed, "", was.message)
          case Accepted(message, due, runAt) =>
            var id := |s.messages|;
            && w.messages == s.messages + [Some(message)]
            && w.rows[row] == (if message.status.Failed?
                               then Recipient(was.contact, RecipientStatus.Failed, Cut(message.error), Some(id))
                               else Recipient(was.contact, RecipientStatus.Sent, "", Some(id)))
            && (forall k | k != RetryKey(id, due) :: (k in w.queue <==> k in s.queue) && (k in s.queue ==> w.queue[k] == s.queue[k]))
            && (RetryKey(id, due) !in s.queue ==>
                  if message.status.Queued?
                  then RetryKey(id, due) in w.queue && w.queue[RetryKey(id, due)] == Action(ActionStatus.Pending, runAt, 0)
                  else RetryKey(id, due) !in w.queue)
            && (RetryKey(id, due) in s.queue ==> RetryKey(id, due) in w.queue && w.queue[RetryKey(id, due)] == s.queue[RetryKey(id, due)]))
  }

  /** A send: nothing for a row already settled, a refusal of its own for a cancelled broadcast, else one copy handled. */
  ghost predicate SendHandled(s: State, t: State, row: nat, env: SendEnv) {
    if row >= |s.rows| || !s.rows[row].status.Pending? then t == s
    else if s.status.Cancelled? then
      t == s.(rows := s.rows[row := Recipient(s.rows[row].contact, RecipientStatus.Cancelled, "", s.rows[row].message)])
    else exists w: State :: CopyHandled(s, w, row, env) && FinishesIff(w, t, None)
  }

  lemma OneRefusal(env: SendEnv)
    ensures SendVerdict(env).None? <==> MaySend(env)
    ensures SendVerdict(env).Some? ==> RefusedFor(env, SendVerdict(env).value)
    ensures forall a, b | RefusedFor(env, a) && RefusedFor(env, b) :: a == b
  {
  }

  lemma SendLaw(s: State, row: nat, env: SendEnv)
    ensures SendHandled(s, Send(s, row, env), row, env)
  {
    hide Tally, SendVerdict, RefusedFor, AnyPending, FanoutOutstanding, Settle, FinishesIff;
    if row < |s.rows| && s.rows[row].status.Pending? && !s.status.Cancelled? {
      OneRefusal(env);
      var refusal := SendVerdict(env);
      var w := if refusal.Some?
               then s.(rows := s.rows[row := Outcome(s.rows[row], RecipientStatus.Skipped, refusal.value, None)])
               else Deliver(s, row, env.outcome);
      assert CopyHandled(s, w, row, env);
      SettleLaw(w, None);
    }
  }

  /** Nobody gets a message whom any of the five checks refuses. */
  lemma OnlyTheAllowedAreMessaged(s: State, row: nat, env: SendEnv)
    ensures Send(s, row, env).messages != s.messages ==>
              && row < |s.rows| && s.rows[row].status.Pending? && !s.status.Cancelled?
              && env.contactExists && !env.connectionDisabled && env.hasIdentity && env.verdict.Allowed? && !env.suppressed
  {
    hide Tally, AnyPending, FanoutOutstanding;
  }

  // ------------------------------------------------------------------ retrying a deferred send

  /** One retry: its own row is done; a message still queued gets its outcome or one more retry, and nothing else moves. */
  ghost predicate RetryHandled(s: State, t: State, key: Key, outcome: RetryOutcome)
    requires key.RetryKey? && key in s.queue
  {
    var m := key.message;
    var waiting := m < |s.messages| && s.messages[m].Some? && s.messages[m].value.status.Queued?;
    && t == s.(queue := t.queue, messages := t.messages)
    && (forall k | k in s.queue :: k in t.queue && t.queue[k] == if k == key then s.queue[k].(status := ActionStatus.Done) else s.queue[k])
    && (forall k | k in t.queue && k !in s.queue ::
          waiting && outcome.Rearmed? && k == RetryKey(m, outcome.due) && t.queue[k] == Action(ActionStatus.Pending, outcome.runAt, 0))
    && (waiting && outcome.Rearmed? ==> RetryKey(m, outcome.due) in t.queue)
    && t.messages == if waiting && outcome.Finished?
                     then s.messages[m := Some(Message(outcome.status, outcome.error))] else s.messages
  }

  lemma RetryLaw(s: State, key: Key, outcome: RetryOutcome)
    requires key.RetryKey? && key in s.queue
    ensures RetryHandled(s, Retry(s, key, outcome), key, outcome)
  {
  }

  // ------------------------------------------------------------------ scheduling

  /** A draft that is scheduled: its first chunk waits in the queue for the moment asked for. */
  ghost predicate ScheduledFor(s: State, t: State, when: real) {
    && t == s.(status := BroadcastStatus.Scheduled, stats := None, queue := t.queue)
    && t.queue.Keys == s.queue.Keys + {FanoutKey(-1)}
    && (forall k | k in s.queue :: t.queue[k] == s.queue[k])
    && (FanoutKey(-1) !in s.queue ==> t.queue[FanoutKey(-1)] == Action(ActionStatus.Pending, when, 0))
  }

  lemma ScheduleLaw(s: State, when: real)
    ensures ScheduledFor(s, Schedule(s, when), when)
  {
  }

  // ------------------------------------------------------------------ cancelling

  /** A sent copy that has not left yet: its message is queued and a retry of it waits unclaimed. */
  ghost predicate CanBeWithdrawn(s: State, row: Recipient) {
    && row.status.Sent? && row.message.Some? && row.message.value < |s.messages|
    && s.messages[row.message.value].Some? && s.messages[row.message.value].value.status.Queued?
    && exists k :: k in s.queue && k.RetryKey? && k.message == row.message.value && s.queue[k].status.Pending?
  }

  /**
   A cancel: every waiting chunk and send is cancelled, and every waiting retry of a copy that
   can be withdrawn; rows that wait or can be withdrawn are cancelled; all else is as it was.
   */
  ghost predicate CancelledFrom(s: State, t: State) {
    && t == s.(status := BroadcastStatus.Cancelled, rows := t.rows, queue := t.queue, stats := Some(Tally(t.rows, s.messages)))
    && |t.rows| == |s.rows|
    && (forall i | 0 <= i < |s.rows| ::
          t.rows[i] == if s.rows[i].status.Pending? || CanBeWithdrawn(s, s.rows[i])
                       then Recipient(s.rows[i].contact, RecipientStatus.Cancelled, s.rows[i].reason, s.rows[i].message)
                       else s.rows[i])
    && t.queue.Keys == s.queue.Keys
    && (forall k | k in s.queue ::
          t.queue[k] == if s.queue[k].status.Pending? && (k.RetryKey? ==> RetriesWithdrawn(s, k.message))
                        then Action(ActionStatus.Cancelled, s.queue[k].runAt, s.queue[k].target) else s.queue[k])
  }

  ghost predicate RetriesWithdrawn(s: State, message: nat) {
    exists i :: 0 <= i < |s.rows| && s.rows[i].message == Some(message) && CanBeWithdrawn(s, s.rows[i])
  }

  lemma StoppableMeansWithdrawn(s: State, m: nat)
    ensures Stoppable(s, m) <==> RetriesWithdrawn(s, m)
  {
    if Stoppable(s, m) {
      var i :| 0 <= i < |s.rows| && s.rows[i].status.Sent? && s.rows[i].message == Some(m);
      var k :| k in s.queue && k.RetryKey? && k.message == m && s.queue[k].status.Pending?;
      assert CanBeWithdrawn(s, s.rows[i]);
    }
    if RetriesWithdrawn(s, m) {
      var i :| 0 <= i < |s.rows| && s.rows[i].message == Some(m) && CanBeWithdrawn(s, s.rows[i]);
    }
  }

  lemma CancelLaw(s: State)
    ensures CancelledFrom(s, Cancel(s))
  {
    hide Tally, Stoppable, CanBeWithdrawn, RetriesWithdrawn;
    var t := Cancel(s);
    forall k | k in s.queue
      ensures t.queue[k] == if s.queue[k].status.Pending? && (k.RetryKey? ==> RetriesWithdrawn(s, k.message))
                            then Action(ActionStatus.Cancelled, s.queue[k].runAt, s.queue[k].target) else s.queue[k]
    {
      if k.RetryKey? { StoppableMeansWithdrawn(s, k.message); }
    }
    forall i | 0 <= i < |s.rows|
      ensures t.rows[i] == if s.rows[i].status.Pending? || CanBeWithdrawn(s, s.rows[i])
                           then Recipient(s.rows[i].contact, RecipientStatus.Cancelled, s.rows[i].reason, s.rows[i].message)
                           else s.rows[i]
    {
      WithdrawnRow(s, i);
    }
  }

  lemma WithdrawnRow(s: State, i: nat)
    requires i < |s.rows|
    ensures CanBeWithdrawn(s, s.rows[i]) <==>
            s.rows[i].status.Sent? && s.rows[i].message.Some? && Stoppable(s, s.rows[i].message.value)
  {
    var row := s.rows[i];
    if row.status.Sent? && row.message.Some? && Stoppable(s, row.message.value) {
      var k :| k in s.queue && k.RetryKey? && k.message == row.message.value && s.queue[k].status.Pending?;
    }
  }

  // ------------------------------------------------------------------ erasing and standing down

  /** The message was this contact's. */
  ghost predicate Theirs(rows: seq<Recipient>, contact: nat, message: nat) {
    exists i :: 0 <= i < |rows| && rows[i].contact == Some(contact) && rows[i].message == Some(message)
  }

  /** The queue row sends to this contact. */
  ghost predicate SendsTo(rows: seq<Recipient>, k: Key, contact: nat) {
    k == SendKey(contact) || (k.RetryKey? && Theirs(rows, contact, k.message))
  }

  /** The row's message is there and has failed, with this error. */
  predicate FailedWith(row: Recipient, messages: Messages, error: string) {
    && row.message.Some? && row.message.value < |messages|
    && messages[row.message.value] == Some(Message(MessageStatus.Failed, error))
  }

  /** What is kept of a contact's row: no name and no message, but the verdict on the copy. */
  ghost predicate Anonymised(row: Recipient, messages: Messages, after: Recipient) {
    && after.contact.None? && after.message.None?
    && (row.status.Pending? ==> after.status.Skipped? && after.reason == "contact_deleted")
    && (row.status.Sent? ==> forall error: string | FailedWith(row, messages, error) ::
          after.status.Failed? && after.reason == Cut(error))
    && (!row.status.Pending? && !(row.status.Sent? && exists error: string :: FailedWith(row, messages, error)) ==>
          after.status == row.status && after.reason == row.reason)
  }

  ghost predicate ErasedFrom(s: State, t: State, contact: nat) {
    && t == s.(rows := t.rows, queue := t.queue, messages := t.messages)
    && |t.rows| == |s.rows| && |t.messages| == |s.messages|
    && (forall i | 0 <= i < |s.rows| ::
          if s.rows[i].contact == Some(contact) then Anonymised(s.rows[i], s.messages, t.rows[i]) else t.rows[i] == s.rows[i])
    && (forall k :: k in t.queue <==> k in s.queue && (SendsTo(s.rows, k, contact) ==> s.queue[k].status.Running?))
    && (forall k | k in t.queue :: t.queue[k] == s.queue[k])
    && (forall m | 0 <= m < |s.messages| :: t.messages[m] == if Theirs(s.rows, contact, m) then None else s.messages[m])
  }

  lemma EraseLaw(s: State, contact: nat)
    ensures ErasedFrom(s, Erase(s, contact), contact)
  {
    hide FrozenRow, Anonymised;
    var t := Erase(s, contact);
    forall m: nat ensures Owns(s.rows, contact, m) <==> Theirs(s.rows, contact, m) {}
    hide Owns, Theirs;
    forall i | 0 <= i < |s.rows| && s.rows[i].contact == Some(contact) ensures Anonymised(s.rows[i], s.messages, t.rows[i]) {
      FreezeLaw(s, s.rows[i]);
    }
  }

  lemma FreezeLaw(s: State, row: Recipient)
    ensures Anonymised(row, s.messages, FrozenRow(s, row).(contact := None, message := None))
  {
    if row.status.Sent? && MessageOf(row, s.messages) == Some(MessageStatus.Failed) {
      assert FailedWith(row, s.messages, s.messages[row.message.value].value.error);
    }
  }

  /** Standing down cancels the waiting actions that would send to the contact, and nothing else. */
  lemma StandDownLaw(s: State, contact: nat)
    ensures var t := StandDown(s, contact);
            && t == s.(queue := t.queue) && t.queue.Keys == s.queue.Keys
            && forall k | k in s.queue ::
                 t.queue[k] == if s.queue[k].status.Pending? && SendsTo(s.rows, k, contact)
                               then Action(ActionStatus.Cancelled, s.queue[k].runAt, s.queue[k].target) else s.queue[k]
  {
    forall m: nat ensures Owns(s.rows, contact, m) <==> Theirs(s.rows, contact, m) {}
  }

  // ------------------------------------------------------------------ one chunk of the audience

  /** The next `size` of the audience past the cursor, or as many as there are. */
  ghost predicate NextOf(audience: seq<Candidate>, cursor: int, size: nat, chunk: seq<Candidate>) {
    exists j: nat, e: nat ::
      && j <= e <= |audience| && chunk == audience[j..e] && (e == j + size || (e == |audience| && e < j + size))
      && (forall i | 0 <= i < j :: audience[i].contact <= cursor)
      && (forall i | j <= i < |audience| :: audience[i].contact > cursor)
  }

  lemma {:induction false} BeyondAt(audience: seq<Candidate>, cursor: int) returns (j: nat)
    requires Ascending(audience)
    ensures j <= |audience| && Beyond(audience, cursor) == audience[j..]
    ensures forall i | 0 <= i < j :: audience[i].contact <= cursor
    ensures forall i | j <= i < |audience| :: audience[i].contact > cursor
  {
    j := 0;
    if audience != [] && audience[0].contact <= cursor {
      var rest := BeyondAt(audience[1..], cursor);
      j := rest + 1;
      assert audience[1..][rest..] == audience[j..];
      forall i | j <= i < |audience| ensures audience[i].contact > cursor {
        assert audience[i] == audience[1..][i - 1];
      }
      forall i | 0 <= i < j ensures audience[i].contact <= cursor {
        if i > 0 { assert audience[i] == audience[1..][i - 1]; }
      }
    }
  }

  lemma ChunkLaw(audience: seq<Candidate>, cursor: int, size: nat)
    requires Ascending(audience)
    ensures NextOf(audience, cursor, size, Chunk(audience, cursor, size))
    ensures Ascending(Chunk(audience, cursor, size))
  {
    var j := BeyondAt(audience, cursor);
    TakesFirst(audience, j, cursor, size, Chunk(audience, cursor, size));
  }

  lemma TakesFirst(audience: seq<Candidate>, j: nat, cursor: int, size: nat, chunk: seq<Candidate>)
    requires Ascending(audience) && j <= |audience|
    requires forall i | 0 <= i < j :: audience[i].contact <= cursor
    requires forall i | j <= i < |audience| :: audience[i].contact > cursor
    requires chunk == if |audience[j..]| <= size then audience[j..] else audience[j..][..size]
    ensures NextOf(audience, cursor, size, chunk) && Ascending(chunk)
  {
    var e := if j + size <= |audience| then j + size else |audience|;
    assert chunk == audience[j..e];
  }

  ghost predicate Recorded(rows: seq<Recipient>, contact: nat) {
    exists i :: 0 <= i < |rows| && rows[i].contact == Some(contact)
  }

  ghost predicate StillWaits(rows: seq<Recipient>, contact: nat) {
    exists i :: 0 <= i < |rows| && rows[i].contact == Some(contact) && rows[i].status.Pending?
  }

  /** The row a candidate is given: waiting, or skipped with the code that denies it. */
  predicate WrittenFor(row: Recipient, c: Candidate) {
    row == match c.verdict
           case Allowed => Recipient(Some(c.contact), RecipientStatus.Pending, "", None)
           case Denied(code) => Recipient(Some(c.contact), RecipientStatus.Skipped, code, None)
  }

  /** The row of a candidate who had none. */
  ghost predicate NewRowOf(rows: seq<Recipient>, chunk: seq<Candidate>, row: Recipient) {
    exists c :: c in chunk && !Recorded(rows, c.contact) && WrittenFor(row, c)
  }

  /** Old rows stay, everybody in the chunk has one, and each new row is that of a candidate who had none. */
  ghost predicate RowsAdded(rows: seq<Recipient>, after: seq<Recipient>, chunk: seq<Candidate>) {
    && rows <= after
    && (forall c | c in chunk :: Recorded(after, c.contact))
    && (forall i | |rows| <= i < |after| :: NewRowOf(rows, chunk, after[i]))
  }

  lemma {:induction false} InsertLaw(rows: seq<Recipient>, chunk: seq<Candidate>)
    ensures RowsAdded(rows, InsertMissing(rows, chunk), chunk)
    decreases |chunk|
  {
    hide RowsAdded, HasRow;
    if chunk == [] {
      NothingAdded(rows);
    } else {
      var next := if HasRow(rows, chunk[0].contact) then rows else rows + [NewRow(chunk[0])];
      InsertLaw(next, chunk[1..]);
      AddedFirst(rows, next, InsertMissing(rows, chunk), chunk);
    }
  }

  lemma NothingAdded(rows: seq<Recipient>)
    ensures RowsAdded(rows, rows, [])
  {
  }

  lemma AddedFirst(rows: seq<Recipient>, next: seq<Recipient>, after: seq<Recipient>, chunk: seq<Candidate>)
    requires chunk != [] && RowsAdded(next, after, chunk[1..])
    requires next == if HasRow(rows, chunk[0].contact) then rows else rows + [NewRow(chunk[0])]
    ensures RowsAdded(rows, after, chunk)
  {
    hide NewRowOf, HasRow, Recorded;
    var c, rest := chunk[0], chunk[1..];
    assert HasRow(rows, c.contact) <==> Recorded(rows, c.contact) by { SameQuestion(rows, c.contact); }
    FirstIsRecorded(rows, next, after, c);
    forall d | d in chunk ensures Recorded(after, d.contact) {
      if d != c { assert d in rest; }
    }
    forall i | |rows| <= i < |after| ensures NewRowOf(rows, chunk, after[i]) {
      if i < |next| {
        FirstIsNew(rows, chunk);
      } else {
        StillNew(rows, next, chunk, after[i]);
      }
    }
  }

  lemma SameQuestion(rows: seq<Recipient>, contact: nat)
    ensures HasRow(rows, contact) <==> Recorded(rows, contact)
  {
  }

  lemma FirstIsRecorded(rows: seq<Recipient>, next: seq<Recipient>, after: seq<Recipient>, c: Candidate)
    requires next == (if Recorded(rows, c.contact) then rows else rows + [NewRow(c)]) && next <= after
    ensures Recorded(after, c.contact)
  {
    if Recorded(rows, c.contact) {
      var i :| 0 <= i < |rows| && rows[i].contact == Some(c.contact);
      assert after[i] == rows[i];
    } else {
      assert after[|rows|] == NewRow(c);
    }
  }

  lemma FirstIsNew(rows: seq<Recipient>, chunk: seq<Candidate>)
    requires chunk != [] && !Recorded(rows, chunk[0].contact)
    ensures NewRowOf(rows, chunk, NewRow(chunk[0]))
  {
    assert chunk[0] in chunk && WrittenFor(NewRow(chunk[0]), chunk[0]);
  }

  /** Who had no row after the first insert had none before it. */
  lemma StillNew(rows: seq<Recipient>, next: seq<Recipient>, chunk: seq<Candidate>, row: Recipient)
    requires chunk != [] && rows <= next && NewRowOf(next, chunk[1..], row)
    ensures NewRowOf(rows, chunk, row)
  {
    var d :| d in chunk[1..] && !Recorded(next, d.contact) && WrittenFor(row, d);
    assert forall r | 0 <= r < |rows| :: next[r] == rows[r];
    assert d in chunk && !Recorded(rows, d.contact);
  }

  /** The eligible candidates among the first `k`. */
  function EligibleAmong(chunk: seq<Candidate>, k: nat): nat
    requires k <= |chunk|
  {
    if k == 0 then 0 else EligibleAmong(chunk, k - 1) + if chunk[k - 1].verdict.Allowed? then 1 else 0
  }

  lemma {:induction false} EligibleTail(chunk: seq<Candidate>, k: nat)
    requires 0 < k <= |chunk|
    ensures EligibleAmong(chunk, k) == EligibleAmong(chunk[1..], k - 1) + if chunk[0].verdict.Allowed? then 1 else 0
  {
    if k == 1 {
      assert EligibleAmong(chunk, 0) == 0;
    } else {
      EligibleTail(chunk, k - 1);
    }
  }

  /** The send armed for the `k`th of the chunk: waiting, aimed at that contact's row, `first` places on. */
  predicate ArmedFor(rows: seq<Recipient>, chunk: seq<Candidate>, k: nat, action: Action, first: int, anchor: real, rate: real)
    requires k < |chunk| && rate > 0.0
  {
    && action.status.Pending? && action.target < |rows| && rows[action.target].contact == Some(chunk[k].contact)
    && action.runAt == anchor + (first + EligibleAmong(chunk, k)) as real / rate
  }

  /** Old queue rows stay; each eligible contact still waiting is armed; nobody else is. */
  ghost predicate SendsArmed(
    queue: Table, after: Table, rows: seq<Recipient>, chunk: seq<Candidate>, first: int, anchor: real, rate: real)
    requires rate > 0.0
  {
    && (forall k | k in queue :: k in after && after[k] == queue[k])
    && (forall c | c in chunk && c.verdict.Allowed? && StillWaits(rows, c.contact) :: SendKey(c.contact) in after)
    && (forall key | key in after && key !in queue ::
          && key.SendKey? && StillWaits(rows, key.contact)
          && exists k: nat :: k < |chunk| && chunk[k].contact == key.contact && chunk[k].verdict.Allowed?
                              && ArmedFor(rows, chunk, k, after[key], first, anchor, rate))
  }

  lemma ArmedNext(
    rows: seq<Recipient>, chunk: seq<Candidate>, i: nat, action: Action, first: int, anchor: real, rate: real)
    requires rate > 0.0 && i + 1 < |chunk|
    requires ArmedFor(rows, chunk[1..], i, action, first + if chunk[0].verdict.Allowed? then 1 else 0, anchor, rate)
    ensures ArmedFor(rows, chunk, i + 1, action, first, anchor, rate)
  {
    EligibleTail(chunk, i + 1);
  }

  /** Arming the first of a chunk and then the rest arms the chunk. */
  lemma ArmOne(queue: Table, armed: Table, after: Table, rows: seq<Recipient>, chunk: seq<Candidate>, first: int,
               anchor: real, rate: real)
    requires rate > 0.0 && chunk != []
    requires SendsArmed(armed, after, rows, chunk[1..], first + if chunk[0].verdict.Allowed? then 1 else 0, anchor, rate)
    requires forall k | k in queue :: k in armed && armed[k] == queue[k]
    requires chunk[0].verdict.Allowed? && StillWaits(rows, chunk[0].contact) ==> SendKey(chunk[0].contact) in armed
    requires forall k | k in armed && k !in queue ::
               && k == SendKey(chunk[0].contact) && chunk[0].verdict.Allowed? && StillWaits(rows, chunk[0].contact)
               && ArmedFor(rows, chunk, 0, armed[k], first, anchor, rate)
    ensures SendsArmed(queue, after, rows, chunk, first, anchor, rate)
  {
    hide StillWaits, ArmedFor;
    var rest := chunk[1..];
    forall d | d in chunk && d.verdict.Allowed? && StillWaits(rows, d.contact) ensures SendKey(d.contact) in after {
      if d != chunk[0] { assert d in rest; }
    }
    forall k | k in after && k !in queue
      ensures k.SendKey? && StillWaits(rows, k.contact)
      ensures exists i: nat :: i < |chunk| && chunk[i].contact == k.contact && chunk[i].verdict.Allowed?
                               && ArmedFor(rows, chunk, i, after[k], first, anchor, rate)
    {
      if k in armed {
        assert after[k] == armed[k];
      } else {
        var i: nat :| i < |rest| && rest[i].contact == k.contact && rest[i].verdict.Allowed?
                      && ArmedFor(rows, rest, i, after[k], first + if chunk[0].verdict.Allowed? then 1 else 0, anchor, rate);
        ArmedNext(rows, chunk, i, after[k], first, anchor, rate);
        assert chunk[i + 1] == rest[i];
      }
    }
  }

  lemma {:induction false} ArmLaw(
    queue: Table, rows: seq<Recipient>, chunk: seq<Candidate>, first: int, anchor: real, rate: real)
    requires rate > 0.0
    ensures SendsArmed(queue, Arm(queue, rows, chunk, first, anchor, rate), rows, chunk, first, anchor, rate)
    decreases |chunk|
  {
    hide HasRow, StillWaits, PendingFor, SendsArmed;
    if chunk == [] {
      NothingArmed(queue, rows, first, anchor, rate);
    } else {
      var c := chunk[0];
      PendingIsWaiting(rows, c.contact);
      var key := SendKey(c.contact);
      var more := if c.verdict.Allowed? then 1 else 0;
      var armed := if c.verdict.Allowed? && PendingFor(rows, c.contact)
                   then Enqueue(queue, key, anchor + first as real / rate, RowOf(rows, c.contact)) else queue;
      ArmLaw(armed, rows, chunk[1..], first + more, anchor, rate);
      ArmOne(queue, armed, Arm(queue, rows, chunk, first, anchor, rate), rows, chunk, first, anchor, rate);
    }
  }

  lemma NothingArmed(queue: Table, rows: seq<Recipient>, first: int, anchor: real, rate: real)
    requires rate > 0.0
    ensures SendsArmed(queue, queue, rows, [], first, anchor, rate)
  {
  }

  lemma PendingIsWaiting(rows: seq<Recipient>, contact: nat)
    ensures PendingFor(rows, contact) <==> StillWaits(rows, contact)
    ensures PendingFor(rows, contact) ==> RowOf(rows, contact) < |rows|
  {
    assert PendingFor(rows, contact) ==> HasRow(rows, contact);
  }

  /** The rows of the broadcast that are not skipped. */
  ghost function Counted(rows: seq<Recipient>): set<nat> {
    set i: nat | i < |rows| && !rows[i].status.Skipped?
  }

  /** The eligible contacts of the chunk still waiting. */
  ghost function Waiting(rows: seq<Recipient>, chunk: seq<Candidate>): set<nat> {
    set c | c in chunk && c.verdict.Allowed? && StillWaits(rows, c.contact) :: c.contact
  }

  lemma {:induction false} CountedRows(rows: seq<Recipient>)
    ensures NotSkipped(rows) == |Counted(rows)|
  {
    if rows == [] {
      assert Counted(rows) == {};
    } else {
      var n := |rows| - 1;
      CountedRows(rows[..n]);
      assert forall i | 0 <= i < n :: rows[..n][i] == rows[i];
      assert Counted(rows) == Counted(rows[..n]) + if rows[n].status.Skipped? then {} else {n};
    }
  }

  lemma WaitingFirst(rows: seq<Recipient>, chunk: seq<Candidate>)
    requires chunk != []
    ensures Waiting(rows, chunk) == Waiting(rows, chunk[1..])
              + if chunk[0].verdict.Allowed? && StillWaits(rows, chunk[0].contact) then {chunk[0].contact} else {}
  {
    hide StillWaits;
    assert chunk == [chunk[0]] + chunk[1..];
    assert forall c :: c in chunk <==> c == chunk[0] || c in chunk[1..];
  }

  lemma {:induction false} WaitingOfChunk(rows: seq<Recipient>, chunk: seq<Candidate>)
    requires Ascending(chunk)
    ensures PendingAmong(rows, chunk) == |Waiting(rows, chunk)|
  {
    hide StillWaits, PendingFor;
    if chunk == [] {
      assert Waiting(rows, chunk) == {};
    } else {
      WaitingOfChunk(rows, chunk[1..]);
      PendingIsWaiting(rows, chunk[0].contact);
      WaitingFirst(rows, chunk);
      assert chunk[0].contact !in Waiting(rows, chunk[1..]);
    }
  }

  /** The rows and sends of one chunk: numbering goes on from the rows not skipped, less those about to be armed. */
  ghost predicate ChunkWritten(s: State, w: State, chunk: seq<Candidate>, now: real, rate: real)
    requires rate > 0.0
  {
    && w == s.(rows := w.rows, queue := w.queue)
    && RowsAdded(s.rows, w.rows, chunk)
    && SendsArmed(s.queue, w.queue, w.rows, chunk, |Counted(w.rows)| - |Waiting(w.rows, chunk)|,
                  if s.startedAt.Some? then s.startedAt.value else now, rate)
  }

  lemma WriteLaw(s: State, chunk: seq<Candidate>, now: real, rate: real)
    requires rate > 0.0 && Ascending(chunk)
    ensures ChunkWritten(s, WriteChunk(s, chunk, now, rate), chunk, now, rate)
  {
    hide InsertMissing, Arm, NotSkipped, PendingAmong, RowsAdded, SendsArmed, Counted, Waiting;
    var rows := InsertMissing(s.rows, chunk);
    InsertLaw(s.rows, chunk);
    CountedRows(rows);
    WaitingOfChunk(rows, chunk);
    ArmLaw(s.queue, rows, chunk, NotSkipped(rows) - PendingAmong(rows, chunk),
           if s.startedAt.Some? then s.startedAt.value else now, rate);
  }

  /** Sending from its first chunk on, and started when that ran. */
  ghost predicate Begun(s: State, b: State, now: real) {
    b == s.(status := BroadcastStatus.Sending,
            startedAt := if s.status.Scheduled? && s.startedAt.None? then Some(now) else s.startedAt)
  }

  /** A fanout run of a live broadcast, over the chunk it resolves: `b` has begun, `w` has written. */
  ghost predicate Fanned(
    s: State, t: State, b: State, w: State, chunk: seq<Candidate>, cursor: int, size: nat, now: real, rate: real)
    requires rate > 0.0
  {
    && Begun(s, b, now)
    && (if chunk == [] then w == b else ChunkWritten(b, w, chunk, now, rate))
    && var counted := w.(stats := Some(Tally(w.rows, w.messages)));
       if |chunk| == size && size > 0 then
         && t == counted.(queue := t.queue)
         && t.queue.Keys == w.queue.Keys + {FanoutKey(chunk[size - 1].contact)}
         && (forall k | k in w.queue :: t.queue[k] == w.queue[k])
         && (FanoutKey(chunk[size - 1].contact) !in w.queue ==>
               t.queue[FanoutKey(chunk[size - 1].contact)] == Action(ActionStatus.Pending, now, 0))
       else FinishesIff(counted, t, Some(FanoutKey(cursor)))
  }

  /** A fanout run: nothing unless the broadcast is live, else the next chunk written and its successor armed. */
  ghost predicate FanoutHandled(
    s: State, t: State, cursor: int, audience: seq<Candidate>, size: nat, now: real, rate: real)
    requires rate > 0.0
  {
    if !s.status.Scheduled? && !s.status.Sending? then t == s
    else exists chunk: seq<Candidate>, b: State, w: State ::
           NextOf(audience, cursor, size, chunk) && Fanned(s, t, b, w, chunk, cursor, size, now, rate)
  }

  lemma FanoutLaw(s: State, cursor: int, audience: seq<Candidate>, size: nat, now: real, rate: real)
    requires rate > 0.0 && size > 0 && Ascending(audience)
    ensures FanoutHandled(s, Fanout(s, cursor, audience, size, now, rate), cursor, audience, size, now, rate)
  {
    hide Tally, WriteChunk, ChunkWritten, NextOf, Settle, FinishesIff, Chunk, Ascending;
    if s.status.Live() {
      var chunk := Chunk(audience, cursor, size);
      ChunkLaw(audience, cursor, size);
      var b := if s.status.Scheduled?
               then s.(status := BroadcastStatus.Sending, startedAt := if s.startedAt.Some? then s.startedAt else Some(now))
               else s;
      var w := if chunk == [] then b else WriteChunk(b, chunk, now, rate);
      WriteLaw(b, chunk, now, rate);
      SettleLaw(w.(stats := Some(Tally(w.rows, w.messages))), Some(FanoutKey(cursor)));
      assert Fanned(s, Fanout(s, cursor, audience, size, now, rate), b, w, chunk, cursor, size, now, rate);
    }
  }

  // ------------------------------------------------------------------ the queue's own moves

  /** One queue row gets a new status and time; nothing else of the broadcast moves. */
  ghost predicate RowMoved(s: State, t: State, key: Key, status: ActionStatus, runAt: real)
    requires key in s.queue
  {
    t == s.(queue := s.queue[key := Action(status, runAt, s.queue[key].target)])
  }

  /** Claimed rows are running, rows put back wait for their new time, rows given up have failed. */
  lemma QueueLaw(stable: set<nat>, s: State, step: Step)
    requires Enabled(stable, s, step)
    ensures step.DoClaim? ==> RowMoved(s, Next(stable, s, step), step.key, ActionStatus.Running, s.queue[step.key].runAt)
    ensures step.DoRequeue? ==> RowMoved(s, Next(stable, s, step), step.key, ActionStatus.Pending, step.at)
    ensures step.DoGiveUp? ==> RowMoved(s, Next(stable, s, step), step.key, ActionStatus.Failed, s.queue[step.key].runAt)
    ensures step.DoReceipt? ==>
              Next(stable, s, step) == s.(messages := s.messages[step.message := Some(Message(step.status, step.error))])
  {
  }

  /** A handler's own row is done once its work is marked, and stands as it was otherwise. */
  lemma HandlerRowsLaw(stable: set<nat>, s: State, step: Step)
    requires Enabled(stable, s, step) && (step.DoFanout? || step.DoSend?)
    ensures var key := if step.DoFanout? then FanoutKey(step.cursor) else SendKey(step.contact);
            var worked := if step.DoFanout? then Fanout(s, step.cursor, step.audience, step.size, step.now, step.rate)
                          else Send(s, s.queue[key].target, step.env);
            var t := Next(stable, s, step);
            key in worked.queue
            && if step.marked then RowMoved(worked, t, key, ActionStatus.Done, worked.queue[key].runAt) else t == worked
  {
    hide Tally, SendVerdict, AnyPending, FanoutOutstanding, Arm, InsertMissing, NotSkipped, PendingAmong, Chunk;
    if step.DoFanout? { FanoutKeepsKeys(s, step.cursor, step.audience, step.size, step.now, step.rate); }
  }

  lemma FanoutKeepsKeys(s: State, cursor: int, audience: seq<Candidate>, size: nat, now: real, rate: real)
    requires rate > 0.0 && size > 0
    ensures forall k | k in s.queue :: k in Fanout(s, cursor, audience, size, now, rate).queue
  {
    hide Tally, AnyPending, FanoutOutstanding, InsertMissing, NotSkipped, PendingAmong, Arm;
    var chunk := Chunk(audience, cursor, size);
    var rows := InsertMissing(s.rows, chunk);
    ArmFacts(s.queue, rows, chunk, NotSkipped(rows) - PendingAmong(rows, chunk),
             if s.startedAt.Some? then s.startedAt.value else now, rate);
  }

  // ------------------------------------------------------------------ the figures

  /** The row's message is there and stands at this status. */
  predicate Reports(row: Recipient, messages: Messages, status: MessageStatus) {
    && row.message.Some? && row.message.value < |messages| && messages[row.message.value].Some?
    && messages[row.message.value].value.status == status
  }

  /** A figure on the broadcast's page. */
  datatype Figure = OfPending | OfSent | OfDelivered | OfRead | OfFailed | OfSkipped | OfCancelled

  /** Which rows it counts: a sent row by what its message reports, any other by its status. */
  predicate Counts(figure: Figure, row: Recipient, messages: Messages) {
    match figure
    case OfPending => row.status.Pending?
    case OfSent => row.status.Sent? && !Reports(row, messages, MessageStatus.Failed)
    case OfDelivered => row.status.Sent? && (Reports(row, messages, Delivered) || Reports(row, messages, Read))
    case OfRead => row.status.Sent? && Reports(row, messages, Read)
    case OfFailed => row.status.Failed? || (row.status.Sent? && Reports(row, messages, MessageStatus.Failed))
    case OfSkipped => row.status.Skipped?
    case OfCancelled => row.status.Cancelled?
  }

  ghost function CountedBy(figure: Figure, rows: seq<Recipient>, messages: Messages): set<nat> {
    set i: nat | i < |rows| && Counts(figure, rows[i], messages)
  }

  lemma OneMoreRow(figure: Figure, rows: seq<Recipient>, messages: Messages)
    requires rows != []
    ensures |CountedBy(figure, rows, messages)| ==
            |CountedBy(figure, rows[..|rows| - 1], messages)| + if Counts(figure, rows[|rows| - 1], messages) then 1 else 0
  {
    hide Counts;
    var n := |rows| - 1;
    assert forall i | 0 <= i < n :: rows[..n][i] == rows[i];
    assert CountedBy(figure, rows, messages)
        == CountedBy(figure, rows[..n], messages) + if Counts(figure, rows[n], messages) then {n} else {};
  }

  /** The figures count the rows. */
  ghost predicate FiguresAre(c: Counters, rows: seq<Recipient>, messages: Messages) {
    && c.queued == |rows|
    && c.pending == |CountedBy(OfPending, rows, messages)|
    && c.sent == |CountedBy(OfSent, rows, messages)|
    && c.delivered == |CountedBy(OfDelivered, rows, messages)|
    && c.read == |CountedBy(OfRead, rows, messages)|
    && c.failed == |CountedBy(OfFailed, rows, messages)|
    && c.skipped == |CountedBy(OfSkipped, rows, messages)|
    && c.cancelled == |CountedBy(OfCancelled, rows, messages)|
  }

  function FigureOf(figure: Figure, c: Counters): int {
    match figure
    case OfPending => c.pending
    case OfSent => c.sent
    case OfDelivered => c.delivered
    case OfRead => c.read
    case OfFailed => c.failed
    case OfSkipped => c.skipped
    case OfCancelled => c.cancelled
  }

  lemma OneRowsShare(figure: Figure, row: Recipient, messages: Messages)
    ensures FigureOf(figure, Share(row, messages)) == if Counts(figure, row, messages) then 1 else 0
    ensures Share(row, messages).queued == 1
  {
  }

  lemma SharesAdd(figure: Figure, a: Counters, b: Counters)
    ensures FigureOf(figure, Add(a, b)) == FigureOf(figure, a) + FigureOf(figure, b)
  {
  }

  lemma {:induction false} FigureCounts(figure: Figure, rows: seq<Recipient>, messages: Messages)
    ensures FigureOf(figure, Tally(rows, messages)) == |CountedBy(figure, rows, messages)| && Tally(rows, messages).queued == |rows|
  {
    hide CountedBy, FigureOf, Share, Counts;
    if rows == [] {
      NothingCounted(figure, messages);
    } else {
      var front, last := rows[..|rows| - 1], rows[|rows| - 1];
      FigureCounts(figure, front, messages);
      OneMoreRow(figure, rows, messages);
      OneRowsShare(figure, last, messages);
      SharesAdd(figure, Tally(front, messages), Share(last, messages));
    }
  }

  lemma NothingCounted(figure: Figure, messages: Messages)
    ensures CountedBy(figure, [], messages) == {} && FigureOf(figure, ZERO) == 0
  {
  }

  lemma FiguresLaw(rows: seq<Recipient>, messages: Messages)
    ensures FiguresAre(Tally(rows, messages), rows, messages)
  {
    hide CountedBy, Tally;
    FigureCounts(OfPending, rows, messages);
    FigureCounts(OfSent, rows, messages);
    FigureCounts(OfDelivered, rows, messages);
    FigureCounts(OfRead, rows, messages);
    FigureCounts(OfFailed, rows, messages);
    FigureCounts(OfSkipped, rows, messages);
    FigureCounts(OfCancelled, rows, messages);
  }
}
