/**
 The handlers and services as they run: a broadcast's rows, updated in place
 statement by statement, each method proved to take the database from one state of
 the model to the next.
 */
module BroadcastStore {
  import opened Queue
  import opened Broadcast
  import opened BroadcastFacts
  import opened BroadcastCounters
  import Laws = BroadcastLaws

  /** What the arming loop does with one candidate. */
  lemma ArmOne(queue: Table, rows: seq<Recipient>, candidates: seq<Candidate>, i: nat, pending: map<nat, nat>,
               n: int, anchor: real, rate: real)
    requires i < |candidates| && rate > 0.0
    requires candidates[i].verdict.Allowed? ==>
               (candidates[i].contact in pending <==> PendingFor(rows, candidates[i].contact))
    requires forall c | c in pending :: pending[c] == RowOf(rows, c)
    ensures var c := candidates[i].contact;
            var armed := if candidates[i].verdict.Allowed? && c in pending
                         then Enqueue(queue, SendKey(c), anchor + n as real / rate, pending[c]) else queue;
            Arm(queue, rows, candidates[i..], n, anchor, rate) ==
            Arm(armed, rows, candidates[i + 1..], if candidates[i].verdict.Allowed? then n + 1 else n, anchor, rate)
  {
    assert candidates[i..][0] == candidates[i] && candidates[i..][1..] == candidates[i + 1..];
  }

  /** The messages of a contact's rows. */
  function OwnedBy(rows: seq<Recipient>, contact: nat): set<nat> {
    set i | 0 <= i < |rows| && rows[i].contact == Some(contact) && rows[i].message.Some? :: rows[i].message.value
  }

  lemma OwnedIsOwns(rows: seq<Recipient>, was: seq<Recipient>, contact: nat, m: nat)
    requires |rows| == |was|
    requires forall i | 0 <= i < |rows| :: rows[i].contact == was[i].contact && rows[i].message == was[i].message
    ensures m in OwnedBy(rows, contact) <==> Owns(was, contact, m)
  {
    if m in OwnedBy(rows, contact) {
      var i :| 0 <= i < |rows| && rows[i].contact == Some(contact) && rows[i].message.Some? && rows[i].message.value == m;
      assert was[i].contact == Some(contact) && was[i].message == Some(m);
    }
    if Owns(was, contact, m) {
      var i :| 0 <= i < |was| && was[i].contact == Some(contact) && was[i].message == Some(m);
      assert rows[i].contact == Some(contact) && rows[i].message == Some(m);
    }
  }

  class Store {
    var status: BroadcastStatus
    var startedAt: Option<real>
    var stats: Option<Counters>
    var announced: nat
    var rows: seq<Recipient>
    var queue: Table
    var messages: Messages

    ghost function Now(): State
      reads this
    {
      State(status, startedAt, stats, announced, rows, queue, messages)
    }

    constructor ()
      ensures Now() == DRAFT
    {
      status, startedAt, stats, announced := BroadcastStatus.Draft, None, None, 0;
      rows, queue, messages := [], map[], [];
    }

    // ---------------------------------------------------------------- scheduling

    /** `schedule_broadcast`, past the composer's gates: only a draft may be scheduled. */
    method ScheduleBroadcast(when: real) returns (accepted: bool)
      modifies this
      ensures accepted <==> old(status).Draft?
      ensures Now() == if accepted then Schedule(old(Now()), when) else old(Now())
      ensures accepted ==> Laws.ScheduledFor(old(Now()), Now(), when)
    {
      Laws.ScheduleLaw(Now(), when);
      if !status.Draft? { return false; }
      status := BroadcastStatus.Scheduled;
      stats := None;
      queue := Enqueue(queue, FanoutKey(START), when, 0);
      return true;
    }

    // ---------------------------------------------------------------- fanout

    /** `handle_broadcast_fanout`. */
    method HandleBroadcastFanout(cursor: int, audience: seq<Candidate>, now: real, rate: real)
      requires rate > 0.0 && Ascending(audience)
      modifies this
      ensures Now() == Fanout(old(Now()), cursor, audience, CHUNK_SIZE, now, rate)
      ensures Laws.FanoutHandled(old(Now()), Now(), cursor, audience, 500, now, rate)
    {
      hide Fanout, Laws.FanoutHandled;
      ghost var before := Now();
      ExpandChunk(cursor, audience, now, rate);
      Laws.FanoutLaw(before, cursor, audience, CHUNK_SIZE, now, rate);
    }

    /** The handler's body: begin, write the next chunk, then arm its successor or settle. */
    method ExpandChunk(cursor: int, audience: seq<Candidate>, now: real, rate: real)
      requires rate > 0.0 && Ascending(audience)
      modifies this
      ensures Now() == Fanout(old(Now()), cursor, audience, CHUNK_SIZE, now, rate)
    {
      hide Laws.FiguresAre, Laws.FinishesIff;
      if !status.Live() { return; }
      if status.Scheduled? {
        status := BroadcastStatus.Sending;
        startedAt := if startedAt.Some? then startedAt else Some(now);
      }
      var candidates := Chunk(audience, cursor, CHUNK_SIZE);
      BeyondFacts(audience, cursor);
      var last := cursor;
      if candidates != [] {
        WriteCandidates(candidates, now, rate);
        last := candidates[|candidates| - 1].contact;
      }
      var current := LiveCounters(rows, messages);
      stats := Some(current);
      if |candidates| == CHUNK_SIZE {
        queue := Enqueue(queue, FanoutKey(last), now, 0);
        return;
      }
      NonePendingIffZero(rows, messages);
      if current.pending == 0 {
        var _ := SettleBroadcast(Some(FanoutKey(cursor)));
      }
    }

    /** `_write_chunk`: the recipient rows in bulk, then a keyed send for each pending eligible one. */
    method WriteCandidates(candidates: seq<Candidate>, now: real, rate: real)
      requires rate > 0.0 && Ascending(candidates)
      modifies this
      ensures Now() == WriteChunk(old(Now()), candidates, now, rate)
    {
      hide InsertMissing, Arm, NotSkipped, PendingAmong, PendingFor, RowOf, HasRow;
      var anchor := if startedAt.Some? then startedAt.value else now;
      InsertRows(candidates);
      var pending := PendingRows(candidates);
      var counted := CountNotSkipped();
      var offset := counted - |pending|;
      ArmSends(candidates, pending, offset, anchor, rate);
    }

    /** The loop over the eligible candidates: a keyed send for each whose row is still pending. */
    method ArmSends(candidates: seq<Candidate>, pending: map<nat, nat>, offset: int, anchor: real, rate: real)
      requires rate > 0.0
      requires forall i | 0 <= i < |candidates| && candidates[i].verdict.Allowed? ::
                 candidates[i].contact in pending <==> PendingFor(rows, candidates[i].contact)
      requires forall c | c in pending :: pending[c] == RowOf(rows, c)
      modifies this`queue
      ensures queue == Arm(old(queue), rows, candidates, offset, anchor, rate)
    {
      var index := 0;
      for i := 0 to |candidates|
        invariant Arm(queue, rows, candidates[i..], offset + index, anchor, rate)
               == Arm(old(queue), rows, candidates, offset, anchor, rate)
      {
        hide PendingFor, RowOf, Arm;
        ArmOne(queue, rows, candidates, i, pending, offset + index, anchor, rate);
        var c := candidates[i].contact;
        if candidates[i].verdict.Allowed? {
          if c in pending {
            queue := Enqueue(queue, SendKey(c), anchor + (offset + index) as real / rate, pending[c]);
          }
          index := index + 1;
        }
      }
    }

    /** `bulk_create(ignore_conflicts=True)`. */
    method InsertRows(candidates: seq<Candidate>)
      modifies this`rows
      ensures rows == InsertMissing(old(rows), candidates)
    {
      for i := 0 to |candidates|
        invariant InsertMissing(rows, candidates[i..]) == InsertMissing(old(rows), candidates)
      {
        assert candidates[i..][0] == candidates[i] && candidates[i..][1..] == candidates[i + 1..];
        if !HasRow(rows, candidates[i].contact) { rows := rows + [NewRow(candidates[i])]; }
      }
    }

    /** The eligible candidates' rows that are still pending, keyed by contact. */
    method PendingRows(candidates: seq<Candidate>) returns (pending: map<nat, nat>)
      requires Ascending(candidates)
      ensures |pending| == PendingAmong(rows, candidates)
      ensures forall i | 0 <= i < |candidates| && candidates[i].verdict.Allowed? ::
                candidates[i].contact in pending <==> PendingFor(rows, candidates[i].contact)
      ensures forall c | c in pending :: pending[c] == RowOf(rows, c)
    {
      pending := map[];
      for i := 0 to |candidates|
        invariant |pending| + PendingAmong(rows, candidates[i..]) == PendingAmong(rows, candidates)
        invariant forall j | 0 <= j < i && candidates[j].verdict.Allowed? ::
                    candidates[j].contact in pending <==> PendingFor(rows, candidates[j].contact)
        invariant forall c | c in pending :: pending[c] == RowOf(rows, c) && exists j :: 0 <= j < i && candidates[j].contact == c
      {
        var c := candidates[i].contact;
        if candidates[i].verdict.Allowed? && PendingFor(rows, c) {
          assert c !in pending;
          pending := pending[c := RowOf(rows, c)];
        }
      }
    }

    method CountNotSkipped() returns (n: nat)
      ensures n == NotSkipped(rows)
    {
      n := 0;
      for i := 0 to |rows|
        invariant n == NotSkipped(rows[..i])
      {
        assert rows[..i + 1][..i] == rows[..i];
        if !rows[i].status.Skipped? { n := n + 1; }
      }
      assert rows[..|rows|] == rows;
    }

    // ---------------------------------------------------------------- settling

    /** `settle`: true for the call that finished the broadcast. */
    method SettleBroadcast(except: Option<Key>) returns (finished: bool)
      modifies this
      ensures Now() == Settle(old(Now()), except)
      ensures Laws.FinishesIff(old(Now()), Now(), except)
      ensures finished <==> old(status).Sending? && status.Sent?
    {
      hide Laws.FinishesIff, Laws.FiguresAre;
      Laws.SettleLaw(Now(), except);
      var current := LiveCounters(rows, messages);
      NonePendingIffZero(rows, messages);
      if current.pending != 0 || !status.Sending? { return false; }
      if FanoutOutstanding(queue, except) { return false; }
      status := BroadcastStatus.Sent;
      stats := Some(current);
      announced := announced + 1;
      return true;
    }

    /** `_maybe_settle`. */
    method MaybeSettle()
      modifies this
      ensures Now() == Settle(old(Now()), None)
    {
      hide Laws.FinishesIff;
      if !AnyPending(rows) {
        var _ := SettleBroadcast(None);
      }
    }

    // ---------------------------------------------------------------- sending

    method SettleRecipient(row: nat, outcome: RecipientStatus, reason: string, message: Option<nat>)
      requires row < |rows|
      modifies this`rows
      ensures rows == old(rows)[row := Outcome(old(rows)[row], outcome, reason, message)]
    {
      var recipient := rows[row];
      recipient := recipient.(status := outcome);
      recipient := recipient.(reason := if |reason| > 200 then reason[..200] else reason);
      if message.Some? { recipient := recipient.(message := message); }
      rows := rows[row := recipient];
    }

    method HandleBroadcastSend(row: nat, env: SendEnv)
      modifies this
      ensures Now() == Send(old(Now()), row, env)
      ensures Laws.SendHandled(old(Now()), Now(), row, env)
      ensures messages != old(messages) ==>
                && env.contactExists && !env.connectionDisabled && env.hasIdentity && env.verdict.Allowed? && !env.suppressed
    {
      hide Laws.SendHandled, Laws.FinishesIff;
      Laws.SendLaw(Now(), row, env);
      Laws.OnlyTheAllowedAreMessaged(Now(), row, env);
      if row >= |rows| { return; }
      if !rows[row].status.Pending? { return; }
      if status.Cancelled? {
        SettleRecipient(row, RecipientStatus.Cancelled, "", None);
        return;
      }
      if !env.contactExists {
        SettleRecipient(row, RecipientStatus.Skipped, CONTACT_DELETED, None);
        MaybeSettle();
        return;
      }
      if env.connectionDisabled {
        SettleRecipient(row, RecipientStatus.Skipped, NO_CONNECTION, None);
        MaybeSettle();
        return;
      }
      if !env.hasIdentity {
        SettleRecipient(row, RecipientStatus.Skipped, NO_IDENTITY, None);
        MaybeSettle();
        return;
      }
      if env.verdict.Denied? {
        SettleRecipient(row, RecipientStatus.Skipped, env.verdict.code, None);
        MaybeSettle();
        return;
      }
      if env.suppressed {
        SettleRecipient(row, RecipientStatus.Skipped, OPTED_OUT, None);
        MaybeSettle();
        return;
      }
      RecordSend(row, env.outcome);
      MaybeSettle();
    }

    /** The facade's effects and `_record_send`. */
    method RecordSend(row: nat, outcome: SendOutcome)
      requires row < |rows|
      modifies this
      ensures Now() == Deliver(old(Now()), row, outcome)
    {
      match outcome
      case NoMessage =>
        SettleRecipient(row, RecipientStatus.Failed, "", None);
      case Accepted(message, due, runAt) =>
        var id := |messages|;
        messages := messages + [Some(message)];
        if message.status.Queued? { queue := Enqueue(queue, RetryKey(id, due), runAt, 0); }
        if message.status.Failed? {
          SettleRecipient(row, RecipientStatus.Failed, message.error, Some(id));
        } else {
          SettleRecipient(row, RecipientStatus.Sent, "", Some(id));
        }
    }

    // ---------------------------------------------------------------- cancelling

    /** `cancel_broadcast`: four writes in one transaction. */
    method CancelBroadcast() returns (accepted: bool)
      modifies this
      ensures accepted <==> old(status).Live()
      ensures Now() == if accepted then Cancel(old(Now())) else old(Now())
      ensures accepted ==> Laws.CancelledFrom(old(Now()), Now())
    {
      hide Laws.CancelledFrom, Laws.FiguresAre, Tally, Stoppable;
      Laws.CancelLaw(Now());
      if !status.Live() { return false; }
      ghost var before := Now();
      status := BroadcastStatus.Cancelled;
      queue := map k | k in queue ::
        if !k.RetryKey? && queue[k].status.Pending? then queue[k].(status := ActionStatus.Cancelled) else queue[k];
      rows := seq(|rows|, i requires 0 <= i < |rows| reads this =>
        if rows[i].status.Pending? then rows[i].(status := RecipientStatus.Cancelled) else rows[i]);
      CancelDeferredSends(before);
      assert rows == Cancel(before).rows;
      assert queue == Cancel(before).queue;
      var current := LiveCounters(rows, messages);
      stats := Some(current);
      return true;
    }

    /** `_cancel_deferred_sends`: only the recipients whose retry this call stopped. */
    method CancelDeferredSends(ghost before: State)
      requires messages == before.messages
      requires |rows| == |before.rows| && queue.Keys == before.queue.Keys
      requires forall k | k in queue && k.RetryKey? :: queue[k] == before.queue[k]
      requires forall i | 0 <= i < |rows| :: if before.rows[i].status.Pending? then !rows[i].status.Sent? else rows[i] == before.rows[i]
      modifies this`rows, this`queue
      ensures |rows| == |before.rows| && queue.Keys == before.queue.Keys
      ensures forall k | k in queue :: queue[k] ==
                if k.RetryKey? && before.queue[k].status.Pending? && Stoppable(before, k.message)
                then before.queue[k].(status := ActionStatus.Cancelled) else old(queue)[k]
      ensures forall i | 0 <= i < |rows| :: rows[i] ==
                if before.rows[i].status.Sent? && before.rows[i].message.Some? && Stoppable(before, before.rows[i].message.value)
                then before.rows[i].(status := RecipientStatus.Cancelled) else old(rows)[i]
    {
      hide Stoppable;
      var stalled: set<nat> := set i | 0 <= i < |rows| && rows[i].status.Sent? && MessageOf(rows[i], messages) == Some(Queued)
        :: rows[i].message.value;
      var retries := set k | k in queue && k.RetryKey? && queue[k].status.Pending? && k.message in stalled;
      var stoppable := set k | k in retries :: k.message;
      assert stalled == Stalled(before) by {
        assert forall i | 0 <= i < |rows| && rows[i].status.Sent? :: rows[i] == before.rows[i];
      }
      assert retries == Waiting(before);
      forall m: nat ensures m in stoppable <==> Stoppable(before, m) {
        StoppableIsStalledAndWaiting(before, m);
      }
      hide Stalled, Waiting, MessageOf;
      queue := map k | k in queue ::
        if k.RetryKey? && queue[k].status.Pending? && k.message in stoppable
        then queue[k].(status := ActionStatus.Cancelled) else queue[k];
      rows := seq(|rows|, i requires 0 <= i < |rows| reads this =>
        if rows[i].status.Sent? && rows[i].message.Some? && rows[i].message.value in stoppable
        then rows[i].(status := RecipientStatus.Cancelled) else rows[i]);
    }

    // ---------------------------------------------------------------- the sweep

    /** `_reconcile`: fail the pending recipients whose send action cannot run any more. */
    method ReconcileRecipients() returns (updated: nat)
      modifies this`rows
      ensures Now() == Reconcile(old(Now()))
      ensures |rows| == |old(rows)|
      ensures forall i | 0 <= i < |rows| ::
                rows[i] == if old(rows)[i].status.Pending? && old(rows)[i].contact.Some?
                              && !(SendKey(old(rows)[i].contact.value) in old(queue)
                                   && (old(queue)[SendKey(old(rows)[i].contact.value)].status.Pending?
                                       || old(queue)[SendKey(old(rows)[i].contact.value)].status.Running?))
                           then Recipient(old(rows)[i].contact, RecipientStatus.Failed, "retries_exhausted", old(rows)[i].message)
                           else old(rows)[i]
      ensures updated == AbandonedCount(old(Now()), |old(rows)|)
    {
      ghost var before := Now();
      Laws.ReconcileLaw(before);
      hide AbandonedCount;
      var contacts := set i | 0 <= i < |rows| && rows[i].status.Pending? && rows[i].contact.Some? :: rows[i].contact.value;
      var alive := set c | c in contacts && SendKey(c) in queue && queue[SendKey(c)].status.Alive();
      updated := FailAbandoned(contacts - alive);
    }

    /** The update of the pending recipients with one of these contacts. */
    method FailAbandoned(abandoned: set<nat>) returns (updated: nat)
      requires forall i | 0 <= i < |rows| ::
                 Abandoned(Now(), rows[i]) <==> rows[i].status.Pending? && rows[i].contact.Some? && rows[i].contact.value in abandoned
      modifies this`rows
      ensures Now() == Reconcile(old(Now()))
      ensures updated == AbandonedCount(old(Now()), |old(rows)|)
    {
      hide Abandoned;
      updated := 0;
      ghost var before := Now();
      for i := 0 to |rows|
        invariant |rows| == |before.rows|
        invariant forall j | 0 <= j < i :: rows[j] == ReconciledRow(before, before.rows[j])
        invariant forall j | i <= j < |rows| :: rows[j] == before.rows[j]
        invariant updated == AbandonedCount(before, i)
      {
        if rows[i].status.Pending? && rows[i].contact.Some? && rows[i].contact.value in abandoned {
          rows := rows[i := rows[i].(status := RecipientStatus.Failed, reason := RETRIES_EXHAUSTED)];
          updated := updated + 1;
        }
      }
    }

    // ---------------------------------------------------------------- erasure

    /** `prepare_for_erasure`, the queue purge and the delete, in one transaction. */
    method EraseContact(contact: nat) returns (reclassified: nat, skipped: nat)
      modifies this
      ensures Now() == Erase(old(Now()), contact)
      ensures Laws.ErasedFrom(old(Now()), Now(), contact)
      ensures reclassified == FrozenOf(old(rows), old(messages), contact)
      ensures skipped == PendingOf(old(rows), contact)
    {
      hide Laws.ErasedFrom;
      ghost var before := Now();
      Laws.EraseLaw(before, contact);
      reclassified := FreezeFailedSends(contact);
      assert forall i | 0 <= i < |rows| :: rows[i].status.Pending? <==> before.rows[i].status.Pending?;
      SamePending(rows, before.rows, contact);
      skipped := SkipPending(contact);
      ForgetContact(contact, before);
    }

    /** The queue rows that are not running, the messages and the contact itself. */
    method ForgetContact(contact: nat, ghost before: State)
      requires Now() == before.(rows := rows) && |rows| == |before.rows|
      requires forall i | 0 <= i < |rows| :: rows[i] ==
                 if before.rows[i].contact == Some(contact) then FrozenRow(before, before.rows[i]) else before.rows[i]
      modifies this`rows, this`queue, this`messages
      ensures Now() == Erase(before, contact)
    {
      var owned := OwnedBy(rows, contact);
      forall m: nat ensures m in owned <==> Owns(before.rows, contact, m) {
        OwnedIsOwns(rows, before.rows, contact, m);
      }
      hide OwnedBy, Owns;
      queue := map k | k in queue
                       && (k == SendKey(contact) || (k.RetryKey? && k.message in owned) ==> queue[k].status.Running?) :: queue[k];
      assert queue == Erase(before, contact).queue;
      messages := seq(|messages|, m requires 0 <= m < |messages| reads this => if m in owned then None else messages[m]);
      assert messages == Erase(before, contact).messages;
      rows := seq(|rows|, i requires 0 <= i < |rows| reads this =>
        if rows[i].contact == Some(contact) then rows[i].(contact := None, message := None) else rows[i]);
      assert rows == Erase(before, contact).rows;
    }

    /** `_freeze_failed_sends`: write a failed message's verdict onto its sent row. */
    method FreezeFailedSends(contact: nat) returns (frozen: nat)
      modifies this`rows
      ensures |rows| == old(|rows|)
      ensures forall i | 0 <= i < |rows| :: rows[i] ==
                if old(rows)[i].contact == Some(contact) && old(rows)[i].status.Sent?
                   && MessageOf(old(rows)[i], messages) == Some(MessageStatus.Failed)
                then FrozenRow(old(Now()), old(rows)[i]) else old(rows)[i]
      ensures frozen == FrozenOf(old(rows), messages, contact)
    {
      frozen := 0;
      for i := 0 to |rows|
        invariant |rows| == |old(rows)|
        invariant frozen == FrozenOf(old(rows)[..i], messages, contact)
        invariant forall j | 0 <= j < i :: rows[j] ==
                    if old(rows)[j].contact == Some(contact) && old(rows)[j].status.Sent?
                       && MessageOf(old(rows)[j], messages) == Some(MessageStatus.Failed)
                    then FrozenRow(old(Now()), old(rows)[j]) else old(rows)[j]
        invariant forall j | i <= j < |rows| :: rows[j] == old(rows)[j]
      {
        assert old(rows)[..i + 1][..i] == old(rows)[..i];
        var m := MessageOf(rows[i], messages);
        if rows[i].contact == Some(contact) && rows[i].status.Sent? && m == Some(MessageStatus.Failed) {
          SettleRecipient(i, RecipientStatus.Failed, messages[rows[i].message.value].value.error, None);
          frozen := frozen + 1;
        }
      }
      assert old(rows)[..|rows|] == old(rows);
    }

    /** `_skip_pending`: record the copies that will now never be sent. */
    method SkipPending(contact: nat) returns (skipped: nat)
      modifies this`rows
      ensures |rows| == old(|rows|)
      ensures forall i | 0 <= i < |rows| :: rows[i] ==
                if old(rows)[i].contact == Some(contact) && old(rows)[i].status.Pending?
                then Outcome(old(rows)[i], RecipientStatus.Skipped, CONTACT_DELETED, None) else old(rows)[i]
      ensures skipped == PendingOf(old(rows), contact)
    {
      skipped := 0;
      for i := 0 to |rows|
        invariant |rows| == |old(rows)|
        invariant skipped == PendingOf(old(rows)[..i], contact)
        invariant forall j | 0 <= j < i :: rows[j] ==
                    if old(rows)[j].contact == Some(contact) && old(rows)[j].status.Pending?
                    then Outcome(old(rows)[j], RecipientStatus.Skipped, CONTACT_DELETED, None) else old(rows)[j]
        invariant forall j | i <= j < |rows| :: rows[j] == old(rows)[j]
      {
        assert old(rows)[..i + 1][..i] == old(rows)[..i];
        if rows[i].contact == Some(contact) && rows[i].status.Pending? {
          SettleRecipient(i, RecipientStatus.Skipped, CONTACT_DELETED, None);
          skipped := skipped + 1;
        }
      }
      assert old(rows)[..|rows|] == old(rows);
    }
  }

  /** The sent rows of one contact whose message failed. */
  function FrozenOf(rows: seq<Recipient>, messages: Messages, contact: nat): nat {
    if rows == [] then 0
    else
      var last := rows[|rows| - 1];
      FrozenOf(rows[..|rows| - 1], messages, contact)
      + if last.contact == Some(contact) && last.status.Sent? && MessageOf(last, messages) == Some(MessageStatus.Failed) then 1 else 0
  }

  lemma {:induction false} SamePending(a: seq<Recipient>, b: seq<Recipient>, contact: nat)
    requires |a| == |b|
    requires forall i | 0 <= i < |a| :: a[i].contact == b[i].contact && (a[i].status.Pending? <==> b[i].status.Pending?)
    ensures PendingOf(a, contact) == PendingOf(b, contact)
  {
    if a != [] { SamePending(a[..|a| - 1], b[..|b| - 1], contact); }
  }

  /** The recipients a reconcile fails. */
  function AbandonedCount(s: State, n: nat): nat
    requires n <= |s.rows|
  {
    if n == 0 then 0 else AbandonedCount(s, n - 1) + if Abandoned(s, s.rows[n - 1]) then 1 else 0
  }

  /** The messages of sent rows that are still queued. */
  ghost function Stalled(s: State): set<nat> {
    set i | 0 <= i < |s.rows| && s.rows[i].status.Sent? && MessageOf(s.rows[i], s.messages) == Some(Queued)
      :: s.rows[i].message.value
  }

  /** Their retries that no worker has claimed. */
  ghost function Waiting(s: State): set<Key> {
    set k | k in s.queue && k.RetryKey? && s.queue[k].status.Pending? && k.message in Stalled(s)
  }

  lemma StoppableIsStalledAndWaiting(s: State, m: nat)
    ensures Stoppable(s, m) <==> exists k :: k in Waiting(s) && k.message == m
  {
    if Stoppable(s, m) {
      var k :| k in s.queue && k.RetryKey? && k.message == m && s.queue[k].status.Pending?;
      var i :| 0 <= i < |s.rows| && s.rows[i].status.Sent? && s.rows[i].message == Some(m);
      assert s.rows[i].message.value in Stalled(s);
      assert k in Waiting(s);
    }
    if k :| k in Waiting(s) && k.message == m {
      var i :| 0 <= i < |s.rows| && s.rows[i].status.Sent? && MessageOf(s.rows[i], s.messages) == Some(Queued)
               && s.rows[i].message.value == m;
    }
  }

  /** `settle_broadcasts`: every live broadcast is reconciled, then settled. */
  method SettleBroadcasts(all: seq<Store>)
    requires forall i, j | 0 <= i < j < |all| :: all[i] != all[j]
    modifies set s | s in all
    ensures forall i | 0 <= i < |all| :: all[i].Now() == Sweep(old(all[i].Now()))
  {
    hide Laws.FinishesIff;
    for i := 0 to |all|
      invariant forall j | 0 <= j < i :: all[j].Now() == Sweep(old(all[j].Now()))
      invariant forall j | i <= j < |all| :: all[j].Now() == old(all[j].Now())
    {
      if all[i].status.Sending? {
        var _ := all[i].ReconcileRecipients();
        var _ := all[i].SettleBroadcast(None);
      }
    }
  }
}
