/**
 One broadcast: its row, its recipient rows, the messages they point at and the
 queue rows that drive it (apps/broadcasts).  Everything here is a function from
 one database state to the next; a handler run, a cancel and a settle are each one
 atomic step.
 */
module Broadcast {
  import opened Queue

  datatype BroadcastStatus = Draft | Scheduled | Sending | Sent | Cancelled
  {
    predicate Live() {
      Scheduled? || Sending?
    }
  }

  datatype RecipientStatus = Pending | Sent | Failed | Skipped | Cancelled

  datatype MessageStatus = Queued | Sent | Delivered | Read | Failed | Deleted

  /** A compliance verdict: allowed, or a denial code. */
  datatype Verdict = Allowed | Denied(code: string)

  /** One contact's entry in a resolved audience. */
  datatype Candidate = Candidate(contact: nat, verdict: Verdict)

  /** A recipient row. The contact and the message are nulled when the contact is erased. */
  datatype Recipient = Recipient(contact: Option<nat>, status: RecipientStatus, reason: string, message: Option<nat>)

  /**
   The idempotency keys. A fanout key is named by its cursor, the last contact the
   previous chunk saw; -1 is the start key.  A retry key is named by its message and
   the second it is due.
   */
  datatype Key =
    | FanoutKey(cursor: int)
    | SendKey(contact: nat)
    | RetryKey(message: nat, due: nat)

  const START := -1

  const CHUNK_SIZE: nat := 500

  const CONTACT_DELETED := "contact_deleted"
  const NO_CONNECTION := "no_connection"
  const NO_IDENTITY := "no_identity"
  const OPTED_OUT := "opted_out"
  const RETRIES_EXHAUSTED := "retries_exhausted"

  type Table = map<Key, Action>

  /** A message row: its status and the error it carries. */
  datatype Message = Message(status: MessageStatus, error: string)

  /** The message table: the index is the message id, `None` a deleted row. */
  type Messages = seq<Option<Message>>

  datatype Counters = Counters(
    queued: nat, pending: nat, sent: int, delivered: nat, read: nat, failed: nat, skipped: nat, cancelled: nat)

  datatype State = State(
    status: BroadcastStatus,
    startedAt: Option<real>,
    stats: Option<Counters>,
    announced: nat,
    rows: seq<Recipient>,
    queue: Table,
    messages: Messages)

  // ------------------------------------------------------------------ counters

  /** The status a recipient's message reports, if the row still exists. */
  function MessageOf(row: Recipient, messages: Messages): Option<MessageStatus> {
    if row.message.Some? && row.message.value < |messages| && messages[row.message.value].Some?
    then Some(messages[row.message.value].value.status)
    else None
  }

  /** What one row adds to each counter: a message that failed reclassifies its `sent` row. */
  function Share(row: Recipient, messages: Messages): Counters {
    var m := MessageOf(row, messages);
    match row.status
    case Pending => Counters(1, 1, 0, 0, 0, 0, 0, 0)
    case Failed => Counters(1, 0, 0, 0, 0, 1, 0, 0)
    case Skipped => Counters(1, 0, 0, 0, 0, 0, 1, 0)
    case Cancelled => Counters(1, 0, 0, 0, 0, 0, 0, 1)
    case Sent =>
      if m == Some(MessageStatus.Failed) then Counters(1, 0, 0, 0, 0, 1, 0, 0)
      else if m == Some(MessageStatus.Read) then Counters(1, 0, 1, 1, 1, 0, 0, 0)
      else if m == Some(MessageStatus.Delivered) then Counters(1, 0, 1, 1, 0, 0, 0, 0)
      else Counters(1, 0, 1, 0, 0, 0, 0, 0)
  }

  function Add(a: Counters, b: Counters): Counters {
    Counters(a.queued + b.queued, a.pending + b.pending, a.sent + b.sent, a.delivered + b.delivered,
             a.read + b.read, a.failed + b.failed, a.skipped + b.skipped, a.cancelled + b.cancelled)
  }

  const ZERO := Counters(0, 0, 0, 0, 0, 0, 0, 0)

  /** The counters of a recipient table. */
  function Tally(rows: seq<Recipient>, messages: Messages): Counters {
    if rows == [] then ZERO else Add(Tally(rows[..|rows| - 1], messages), Share(rows[|rows| - 1], messages))
  }

  predicate AnyPending(rows: seq<Recipient>) {
    exists i | 0 <= i < |rows| :: rows[i].status.Pending?
  }

  // ------------------------------------------------------------------ the audience

  predicate Ascending(audience: seq<Candidate>) {
    forall i, j | 0 <= i < j < |audience| :: audience[i].contact < audience[j].contact
  }

  /** The contacts past a cursor, in order. */
  function Beyond(audience: seq<Candidate>, cursor: int): seq<Candidate> {
    if audience == [] then []
    else if audience[0].contact > cursor then audience
    else Beyond(audience[1..], cursor)
  }

  /** `iter_candidates(after=cursor, limit=size)`. */
  function Chunk(audience: seq<Candidate>, cursor: int, size: nat): seq<Candidate> {
    var rest := Beyond(audience, cursor);
    if |rest| <= size then rest else rest[..size]
  }

  // ------------------------------------------------------------------ recipient rows

  predicate HasRow(rows: seq<Recipient>, contact: nat) {
    exists i | 0 <= i < |rows| :: rows[i].contact == Some(contact)
  }

  /** The row id of a contact, or the table's length. */
  function RowOf(rows: seq<Recipient>, contact: nat): (i: nat)
    ensures i <= |rows|
    ensures i < |rows| ==> rows[i].contact == Some(contact)
    ensures i == |rows| ==> !HasRow(rows, contact)
  {
    if rows == [] then 0
    else if rows[0].contact == Some(contact) then 0
    else 1 + RowOf(rows[1..], contact)
  }

  predicate PendingFor(rows: seq<Recipient>, contact: nat) {
    exists i | 0 <= i < |rows| :: rows[i].contact == Some(contact) && rows[i].status.Pending?
  }

  function NewRow(candidate: Candidate): Recipient {
    match candidate.verdict
    case Allowed => Recipient(Some(candidate.contact), RecipientStatus.Pending, "", None)
    case Denied(code) => Recipient(Some(candidate.contact), RecipientStatus.Skipped, code, None)
  }

  /** `bulk_create(ignore_conflicts=True)` under unique (broadcast, contact). */
  function InsertMissing(rows: seq<Recipient>, chunk: seq<Candidate>): seq<Recipient>
    decreases |chunk|
  {
    if chunk == [] then rows
    else if HasRow(rows, chunk[0].contact) then InsertMissing(rows, chunk[1..])
    else InsertMissing(rows + [NewRow(chunk[0])], chunk[1..])
  }

  function NotSkipped(rows: seq<Recipient>): nat {
    if rows == [] then 0
    else NotSkipped(rows[..|rows| - 1]) + if rows[|rows| - 1].status.Skipped? then 0 else 1
  }

  /** The eligible contacts of a chunk whose row is still pending. */
  function PendingAmong(rows: seq<Recipient>, chunk: seq<Candidate>): nat {
    if chunk == [] then 0
    else (if chunk[0].verdict.Allowed? && PendingFor(rows, chunk[0].contact) then 1 else 0)
         + PendingAmong(rows, chunk[1..])
  }

  /** Arm a send for each pending eligible candidate; `n` numbers the eligible ones. */
  function Arm(queue: Table, rows: seq<Recipient>, chunk: seq<Candidate>, n: int, anchor: real, rate: real): Table
    requires rate > 0.0
    decreases |chunk|
  {
    if chunk == [] then queue
    else if !chunk[0].verdict.Allowed? then Arm(queue, rows, chunk[1..], n, anchor, rate)
    else
      var c := chunk[0].contact;
      var armed := if PendingFor(rows, c)
                   then Enqueue(queue, SendKey(c), anchor + n as real / rate, RowOf(rows, c))
                   else queue;
      Arm(armed, rows, chunk[1..], n + 1, anchor, rate)
  }

  /** `_write_chunk`. */
  function WriteChunk(s: State, chunk: seq<Candidate>, now: real, rate: real): State
    requires rate > 0.0
  {
    var rows := InsertMissing(s.rows, chunk);
    var anchor := if s.startedAt.Some? then s.startedAt.value else now;
    var offset := NotSkipped(rows) - PendingAmong(rows, chunk);
    s.(rows := rows, queue := Arm(s.queue, rows, chunk, offset, anchor, rate))
  }

  // ------------------------------------------------------------------ settling

  /** Is a chunk other than `except` still owed? */
  predicate FanoutOutstanding(queue: Table, except: Option<Key>) {
    exists k | k in queue :: k.FanoutKey? && Some(k) != except && queue[k].status.Owed()
  }

  /** `settle`: the transition to `sent`, with its announcement and frozen stats. */
  function Settle(s: State, except: Option<Key>): State {
    if AnyPending(s.rows) || !s.status.Sending? || FanoutOutstanding(s.queue, except) then s
    else s.(status := BroadcastStatus.Sent,
            stats := Some(Tally(s.rows, s.messages)),
            announced := s.announced + 1)
  }

  // ------------------------------------------------------------------ the two handlers

  /** `handle_broadcast_fanout` for the row keyed by `cursor`. */
  function Fanout(s: State, cursor: int, audience: seq<Candidate>, size: nat, now: real, rate: real): State
    requires rate > 0.0 && size > 0
  {
    if !s.status.Live() then s
    else
      var started := if s.status.Scheduled?
                     then s.(status := BroadcastStatus.Sending,
                             startedAt := if s.startedAt.Some? then s.startedAt else Some(now))
                     else s;
      var chunk := Chunk(audience, cursor, size);
      var written := if chunk == [] then started else WriteChunk(started, chunk, now, rate);
      var counted := written.(stats := Some(Tally(written.rows, written.messages)));
      if |chunk| == size
      then counted.(queue := Enqueue(counted.queue, FanoutKey(chunk[|chunk| - 1].contact), now, 0))
      else Settle(counted, Some(FanoutKey(cursor)))
  }

  /** What the facade hands back for one send, and when a deferred one is retried. */
  datatype SendOutcome =
    | NoMessage
    | Accepted(message: Message, due: nat, runAt: real)

  /** Everything outside the model that a send reads. */
  datatype SendEnv = SendEnv(
    contactExists: bool, connectionDisabled: bool, hasIdentity: bool, verdict: Verdict, suppressed: bool,
    outcome: SendOutcome)

  /** `settle_recipient`. */
  function Outcome(row: Recipient, status: RecipientStatus, reason: string, message: Option<nat>): Recipient {
    row.(status := status,
         reason := if |reason| <= 200 then reason else reason[..200],
         message := if message.Some? then message else row.message)
  }

  /** The row a send leaves behind, and whether the facade was reached. */
  function SendVerdict(env: SendEnv): Option<string> {
    if !env.contactExists then Some(CONTACT_DELETED)
    else if env.connectionDisabled then Some(NO_CONNECTION)
    else if !env.hasIdentity then Some(NO_IDENTITY)
    else if env.verdict.Denied? then Some(env.verdict.code)
    else if env.suppressed then Some(OPTED_OUT)
    else None
  }

  /** The send itself: the message row, the retry a deferral arms, and the recipient's outcome. */
  function Deliver(s: State, row: nat, outcome: SendOutcome): State
    requires row < |s.rows|
  {
    match outcome
    case NoMessage =>
      s.(rows := s.rows[row := Outcome(s.rows[row], RecipientStatus.Failed, "", None)])
    case Accepted(message, due, runAt) =>
      var id := |s.messages|;
      var failed := message.status.Failed?;
      s.(messages := s.messages + [Some(message)],
         queue := if message.status.Queued? then Enqueue(s.queue, RetryKey(id, due), runAt, 0) else s.queue,
         rows := s.rows[row := Outcome(s.rows[row],
                                       if failed then RecipientStatus.Failed else RecipientStatus.Sent,
                                       if failed then message.error else "",
                                       Some(id))])
  }

  /** `handle_broadcast_send` for the recipient row `row`. */
  function Send(s: State, row: nat, env: SendEnv): State {
    if row >= |s.rows| || !s.rows[row].status.Pending? then s
    else if s.status.Cancelled? then
      s.(rows := s.rows[row := Outcome(s.rows[row], RecipientStatus.Cancelled, "", None)])
    else
      var refusal := SendVerdict(env);
      var sent := if refusal.Some?
                  then s.(rows := s.rows[row := Outcome(s.rows[row], RecipientStatus.Skipped, refusal.value, None)])
                  else Deliver(s, row, env.outcome);
      Settle(sent, None)
  }

  /** What one retry of a queued message comes to. */
  datatype RetryOutcome =
    | Finished(status: MessageStatus, error: string)
    | Rearmed(due: nat, runAt: real)

  /** `handle_send_retry`: the work and the row's `done` commit together. */
  function Retry(s: State, key: Key, outcome: RetryOutcome): State
    requires key.RetryKey? && key in s.queue
  {
    var done := s.(queue := Mark(s.queue, key, ActionStatus.Done));
    var m := key.message;
    if m >= |s.messages| || s.messages[m].None? || !s.messages[m].value.status.Queued? then done
    else match outcome
      case Finished(status, error) => done.(messages := s.messages[m := Some(Message(status, error))])
      case Rearmed(due, runAt) => done.(queue := Enqueue(done.queue, RetryKey(m, due), runAt, 0))
  }

  // ------------------------------------------------------------------ scheduling and cancelling

  /** `schedule_broadcast`, past its gates. */
  function Schedule(s: State, when: real): State {
    s.(status := BroadcastStatus.Scheduled, stats := None, queue := Enqueue(s.queue, FanoutKey(START), when, 0))
  }

  /** The messages a cancel can still stop: queued, owned by a sent row, with a retry not yet claimed. */
  predicate Stoppable(s: State, m: nat) {
    && m < |s.messages| && s.messages[m].Some? && s.messages[m].value.status.Queued?
    && (exists i | 0 <= i < |s.rows| :: s.rows[i].status.Sent? && s.rows[i].message == Some(m))
    && (exists k | k in s.queue :: k.RetryKey? && k.message == m && s.queue[k].status.Pending?)
  }

  function CancelledAction(s: State, k: Key): Action
    requires k in s.queue
  {
    var stop := s.queue[k].status.Pending? && (k.RetryKey? ==> Stoppable(s, k.message));
    if stop then s.queue[k].(status := ActionStatus.Cancelled) else s.queue[k]
  }

  function CancelledRow(s: State, row: Recipient): Recipient {
    if row.status.Pending? || (row.status.Sent? && row.message.Some? && Stoppable(s, row.message.value))
    then row.(status := RecipientStatus.Cancelled)
    else row
  }

  /** `cancel_broadcast`: the status, the pending actions, the pending rows and the deferred sends. */
  function Cancel(s: State): State {
    var rows := seq(|s.rows|, i requires 0 <= i < |s.rows| => CancelledRow(s, s.rows[i]));
    s.(status := BroadcastStatus.Cancelled,
       queue := map k | k in s.queue :: CancelledAction(s, k),
       rows := rows,
       stats := Some(Tally(rows, s.messages)))
  }

  // ------------------------------------------------------------------ the hourly sweep

  /** A pending row whose send can no longer run. A row without a contact is never matched. */
  predicate Abandoned(s: State, row: Recipient) {
    && row.status.Pending?
    && row.contact.Some?
    && !(SendKey(row.contact.value) in s.queue && s.queue[SendKey(row.contact.value)].status.Alive())
  }

  function ReconciledRow(s: State, row: Recipient): Recipient {
    if Abandoned(s, row) then row.(status := RecipientStatus.Failed, reason := RETRIES_EXHAUSTED) else row
  }

  /** `_reconcile`. */
  function Reconcile(s: State): State {
    s.(rows := seq(|s.rows|, i requires 0 <= i < |s.rows| => ReconciledRow(s, s.rows[i])))
  }

  /** One broadcast's turn in `settle_broadcasts`. */
  function Sweep(s: State): State {
    if s.status.Sending? then Settle(Reconcile(s), None) else s
  }

  // ------------------------------------------------------------------ erasure

  predicate Owns(rows: seq<Recipient>, contact: nat, m: nat) {
    exists i | 0 <= i < |rows| :: rows[i].contact == Some(contact) && rows[i].message == Some(m)
  }

  /** `prepare_for_erasure` on one row: write the verdict down before the evidence goes. */
  function FrozenRow(s: State, row: Recipient): Recipient {
    if row.status.Sent? && MessageOf(row, s.messages) == Some(MessageStatus.Failed)
    then Outcome(row, RecipientStatus.Failed, s.messages[row.message.value].value.error, None)
    else if row.status.Pending? then Outcome(row, RecipientStatus.Skipped, CONTACT_DELETED, None)
    else row
  }

  function ErasedRow(s: State, row: Recipient, contact: nat): Recipient {
    if row.contact == Some(contact) then FrozenRow(s, row).(contact := None, message := None) else row
  }

  predicate NamesContact(s: State, k: Key, contact: nat) {
    k == SendKey(contact) || (k.RetryKey? && Owns(s.rows, contact, k.message))
  }

  /** The erasure's transaction: freeze, purge the queue rows not running, delete the messages and the contact. */
  function Erase(s: State, contact: nat): State {
    s.(rows := seq(|s.rows|, i requires 0 <= i < |s.rows| => ErasedRow(s, s.rows[i], contact)),
       queue := map k | k in s.queue && (NamesContact(s, k, contact) ==> s.queue[k].status.Running?) :: s.queue[k],
       messages := seq(|s.messages|, m requires 0 <= m < |s.messages| =>
         if Owns(s.rows, contact, m) then None else s.messages[m]))
  }

  /** `stand_down`: cancel the pending actions that name a contact. */
  function StandDown(s: State, contact: nat): State {
    s.(queue := map k | k in s.queue ::
         if NamesContact(s, k, contact) && s.queue[k].status.Pending?
         then s.queue[k].(status := ActionStatus.Cancelled)
         else s.queue[k])
  }

  // ------------------------------------------------------------------ runs

  /** `marked` is false for a run whose work commits while its row is left to run again. */
  datatype Step =
    | DoSchedule(when: real)
    | DoClaim(key: Key)
    | DoRequeue(key: Key, at: real)
    | DoGiveUp(key: Key)
    | DoFanout(cursor: int, audience: seq<Candidate>, size: nat, now: real, rate: real, marked: bool)
    | DoSend(contact: nat, env: SendEnv, marked: bool)
    | DoRetry(message: nat, due: nat, retry: RetryOutcome)
    | DoReceipt(message: nat, status: MessageStatus, error: string)
    | DoCancel
    | DoSettle
    | DoReconcile
    | DoStandDown(contact: nat)
    | DoErase(contact: nat)

  ghost predicate Includes(audience: seq<Candidate>, contact: nat) {
    exists i | 0 <= i < |audience| :: audience[i].contact == contact
  }

  /**
   When a step may happen.  `stable` is the set of contacts every resolution of the
   audience contains; everybody else may come and go between two chunks.  A fanout or
   send row may run whatever its status, any number of times.
   */
  ghost predicate Enabled(stable: set<nat>, s: State, step: Step) {
    match step
    case DoSchedule(_) => s.status.Draft?
    case DoClaim(key) => key in s.queue && s.queue[key].status.Pending?
    case DoRequeue(key, _) => key in s.queue && s.queue[key].status.Running?
    case DoGiveUp(key) => key in s.queue && s.queue[key].status.Running?
    case DoFanout(cursor, audience, size, _, rate, _) =>
      && FanoutKey(cursor) in s.queue && rate > 0.0 && size > 0
      && Ascending(audience)
      && (forall c | c in stable :: Includes(audience, c))
    case DoSend(contact, _, _) => SendKey(contact) in s.queue
    case DoRetry(message, due, _) =>
      RetryKey(message, due) in s.queue && s.queue[RetryKey(message, due)].status.Running?
    case DoReceipt(message, _, _) => message < |s.messages| && s.messages[message].Some?
    case DoCancel => s.status.Live()
    case DoSettle => true
    case DoReconcile => s.status.Sending?
    case DoStandDown(_) => true
    case DoErase(contact) => contact !in stable
  }


  /** Running a fanout row: the handler, then the row's `done` in the same transaction. */
  function RunFanout(s: State, cursor: int, audience: seq<Candidate>, size: nat, now: real, rate: real,
                     marked: bool): State
    requires FanoutKey(cursor) in s.queue && rate > 0.0 && size > 0
  {
    var worked := Fanout(s, cursor, audience, size, now, rate);
    if marked && FanoutKey(cursor) in worked.queue
    then worked.(queue := Mark(worked.queue, FanoutKey(cursor), ActionStatus.Done))
    else worked
  }

  function RunSend(s: State, contact: nat, env: SendEnv, marked: bool): State
    requires SendKey(contact) in s.queue
  {
    var worked := Send(s, s.queue[SendKey(contact)].target, env);
    if marked && SendKey(contact) in worked.queue
    then worked.(queue := Mark(worked.queue, SendKey(contact), ActionStatus.Done))
    else worked
  }

  ghost function Next(stable: set<nat>, s: State, step: Step): State
    requires Enabled(stable, s, step)
  {
    match step
    case DoSchedule(when) => Schedule(s, when)
    case DoClaim(key) => s.(queue := Mark(s.queue, key, ActionStatus.Running))
    case DoRequeue(key, at) =>
      s.(queue := s.queue[key := s.queue[key].(status := ActionStatus.Pending, runAt := at)])
    case DoGiveUp(key) => s.(queue := Mark(s.queue, key, ActionStatus.Failed))
    case DoFanout(cursor, audience, size, now, rate, marked) => RunFanout(s, cursor, audience, size, now, rate, marked)
    case DoSend(contact, env, marked) => RunSend(s, contact, env, marked)
    case DoRetry(message, due, retry) => Retry(s, RetryKey(message, due), retry)
    case DoReceipt(message, status, error) => s.(messages := s.messages[message := Some(Message(status, error))])
    case DoCancel => Cancel(s)
    case DoSettle => Settle(s, None)
    case DoReconcile => Reconcile(s)
    case DoStandDown(contact) => StandDown(s, contact)
    case DoErase(contact) => Erase(s, contact)
  }

  /** Every step of the run may happen in the state it finds. */
  ghost predicate Legal(stable: set<nat>, s: State, steps: seq<Step>)
    decreases |steps|
  {
    steps == [] || (Enabled(stable, s, steps[0]) && Legal(stable, Next(stable, s, steps[0]), steps[1..]))
  }

  /** The state a legal run ends in. */
  ghost function Exec(stable: set<nat>, s: State, steps: seq<Step>): State
    requires Legal(stable, s, steps)
    decreases |steps|
  {
    if steps == [] then s else Exec(stable, Next(stable, s, steps[0]), steps[1..])
  }

  /** A new draft. */
  const DRAFT := State(BroadcastStatus.Draft, None, None, 0, [], map[], [])
}
