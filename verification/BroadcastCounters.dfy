/** The live figures: what they conserve, how they are computed, and what an erasure does to them. */
module BroadcastCounters {
  import opened Queue
  import opened Broadcast
  import opened BroadcastFacts
  import opened BroadcastSafety
  import Laws = BroadcastLaws

  /** `Counters.settled`. */
  function Settled(c: Counters): int {
    c.sent + c.failed + c.skipped + c.cancelled
  }

  /** `Counters.percent`, with the quotient taken exactly. */
  function Percent(c: Counters): int {
    if c.queued == 0 then 0 else Settled(c) * 100 / c.queued
  }

  /** Figures for n rows that count every row once and nest the delivery figures. */
  predicate Balanced(c: Counters, n: nat) {
    c.queued == n && c.queued == c.pending + Settled(c) && c.read <= c.delivered <= c.sent
  }

  lemma BalancedAdd(a: Counters, m: nat, b: Counters, n: nat)
    requires Balanced(a, m) && Balanced(b, n)
    ensures Balanced(Add(a, b), m + n)
  {
  }

  /** Every row is counted once, and the delivery figures nest. */
  lemma {:induction false} Conservation(rows: seq<Recipient>, messages: Messages)
    ensures Balanced(Tally(rows, messages), |rows|)
  {
    if rows != [] {
      var front, last := rows[..|rows| - 1], rows[|rows| - 1];
      Conservation(front, messages);
      assert Balanced(Share(last, messages), 1);
      BalancedAdd(Tally(front, messages), |front|, Share(last, messages), 1);
    }
  }

  /** `is_finished` read off the counters is the question "is any row pending". */
  lemma {:induction false} NonePendingIffZero(rows: seq<Recipient>, messages: Messages)
    ensures Tally(rows, messages).pending == 0 <==> !AnyPending(rows)
  {
    if rows != [] {
      NonePendingIffZero(rows[..|rows| - 1], messages);
      PendingSplits(rows);
    }
  }

  lemma PendingSplits(rows: seq<Recipient>)
    requires rows != []
    ensures AnyPending(rows) <==> AnyPending(rows[..|rows| - 1]) || rows[|rows| - 1].status.Pending?
  {
    var front := rows[..|rows| - 1];
    if AnyPending(front) {
      var i :| 0 <= i < |front| && front[i].status.Pending?;
      assert rows[i].status.Pending?;
    }
    if AnyPending(rows) && !rows[|rows| - 1].status.Pending? {
      var i :| 0 <= i < |rows| && rows[i].status.Pending?;
      assert front[i].status.Pending?;
    }
  }

  lemma PercentOf(c: Counters, n: nat)
    requires Balanced(c, n)
    ensures 0 <= Percent(c) <= 100 && (Percent(c) == 100 <==> n > 0 && c.pending == 0)
  {
    if n > 0 { QuotientBounds(Settled(c), n); }
  }

  /** The progress bar stays within 0..100 and is full exactly when a nonempty broadcast has nothing pending. */
  lemma PercentIsFullWhenNothingPends(rows: seq<Recipient>, messages: Messages)
    ensures var p := Percent(Tally(rows, messages));
            0 <= p <= 100 && (p == 100 <==> rows != [] && !AnyPending(rows))
  {
    Conservation(rows, messages);
    NonePendingIffZero(rows, messages);
    PercentOf(Tally(rows, messages), |rows|);
  }

  lemma TimesMonotone(q: int, a: int, b: int)
    requires q > 0
    ensures a < b ==> q * a + q <= q * b
    decreases b - a
  {
    if a + 1 < b { TimesMonotone(q, a, b - 1); }
  }

  lemma QuotientBounds(n: int, q: int)
    requires 0 <= n <= q && q > 0
    ensures 0 <= n * 100 / q <= 100
    ensures n * 100 / q == 100 <==> n == q
  {
    var p := n * 100 / q;
    assert n * 100 == q * p + n * 100 % q;
    TimesMonotone(q, 100, p);
    TimesMonotone(q, p, 100);
    TimesMonotone(q, p, 0);
  }

  // ------------------------------------------------------------------ the two group-bys

  function CountStatus(rows: seq<Recipient>, status: RecipientStatus): nat {
    if rows == [] then 0
    else CountStatus(rows[..|rows| - 1], status) + if rows[|rows| - 1].status == status then 1 else 0
  }

  function CountSent(rows: seq<Recipient>, messages: Messages, status: MessageStatus): nat {
    if rows == [] then 0
    else CountSent(rows[..|rows| - 1], messages, status)
         + if rows[|rows| - 1].status.Sent? && MessageOf(rows[|rows| - 1], messages) == Some(status) then 1 else 0
  }

  function One(b: bool): nat {
    if b then 1 else 0
  }

  /** The counters, assembled from the two group-bys with failed messages reclassified. */
  function Reclassified(rows: seq<Recipient>, messages: Messages): Counters {
    var failed := CountSent(rows, messages, MessageStatus.Failed);
    var read := CountSent(rows, messages, Read);
    Counters(|rows|, CountStatus(rows, RecipientStatus.Pending),
             CountStatus(rows, RecipientStatus.Sent) - failed,
             CountSent(rows, messages, Delivered) + read, read,
             CountStatus(rows, RecipientStatus.Failed) + failed,
             CountStatus(rows, Skipped), CountStatus(rows, RecipientStatus.Cancelled))
  }

  lemma CountStatusStep(rows: seq<Recipient>, status: RecipientStatus)
    requires rows != []
    ensures CountStatus(rows, status) == CountStatus(rows[..|rows| - 1], status) + One(rows[|rows| - 1].status == status)
  {
  }

  lemma CountSentStep(rows: seq<Recipient>, messages: Messages, status: MessageStatus)
    requires rows != []
    ensures var last := rows[|rows| - 1];
            CountSent(rows, messages, status) ==
            CountSent(rows[..|rows| - 1], messages, status) + One(last.status.Sent? && MessageOf(last, messages) == Some(status))
  {
  }

  lemma ReclassifiedStep(rows: seq<Recipient>, messages: Messages)
    requires rows != []
    ensures Reclassified(rows, messages) == Add(Reclassified(rows[..|rows| - 1], messages), Share(rows[|rows| - 1], messages))
  {
    CountStatusStep(rows, RecipientStatus.Pending);
    CountStatusStep(rows, RecipientStatus.Sent);
    CountStatusStep(rows, RecipientStatus.Failed);
    CountStatusStep(rows, Skipped);
    CountStatusStep(rows, RecipientStatus.Cancelled);
    CountSentStep(rows, messages, MessageStatus.Failed);
    CountSentStep(rows, messages, Delivered);
    CountSentStep(rows, messages, Read);
  }

  /** The reclassification of failed messages, stated on group counts, is the row-by-row tally. */
  lemma {:induction false} TallyIsReclassified(rows: seq<Recipient>, messages: Messages)
    ensures Tally(rows, messages) == Reclassified(rows, messages)
  {
    if rows != [] {
      TallyIsReclassified(rows[..|rows| - 1], messages);
      ReclassifiedStep(rows, messages);
    }
  }

  /** `GROUP BY status`: a status nobody holds has no group. */
  method GroupByStatus(rows: seq<Recipient>) returns (groups: map<RecipientStatus, nat>)
    ensures forall s | s in groups :: groups[s] == CountStatus(rows, s)
    ensures forall s | s !in groups :: CountStatus(rows, s) == 0
  {
    groups := map[];
    for i := 0 to |rows|
      invariant forall s | s in groups :: groups[s] == CountStatus(rows[..i], s)
      invariant forall s | s !in groups :: CountStatus(rows[..i], s) == 0
    {
      assert rows[..i + 1][..i] == rows[..i];
      var s := rows[i].status;
      groups := groups[s := 1 + if s in groups then groups[s] else 0];
    }
    assert rows[..|rows|] == rows;
  }

  /** `GROUP BY message__status` over the sent rows that have a message. */
  method GroupByMessage(rows: seq<Recipient>, messages: Messages) returns (groups: map<MessageStatus, nat>)
    ensures forall s | s in groups :: groups[s] == CountSent(rows, messages, s)
    ensures forall s | s !in groups :: CountSent(rows, messages, s) == 0
  {
    groups := map[];
    for i := 0 to |rows|
      invariant forall s | s in groups :: groups[s] == CountSent(rows[..i], messages, s)
      invariant forall s | s !in groups :: CountSent(rows[..i], messages, s) == 0
    {
      assert rows[..i + 1][..i] == rows[..i];
      var m := MessageOf(rows[i], messages);
      if rows[i].status.Sent? && m.Some? {
        groups := groups[m.value := 1 + if m.value in groups then groups[m.value] else 0];
      }
    }
    assert rows[..|rows|] == rows;
  }

  function Part(groups: map<MessageStatus, nat>, done: set<MessageStatus>, status: MessageStatus): nat {
    if status in done && status in groups then groups[status] else 0
  }

  /** `counters`: three aggregates and a reclassifying loop over the message groups, in any order. */
  method LiveCounters(rows: seq<Recipient>, messages: Messages) returns (c: Counters)
    ensures c == Tally(rows, messages) && Laws.FiguresAre(c, rows, messages)
  {
    hide CountStatus, CountSent, Tally, Laws.FiguresAre;
    Laws.FiguresLaw(rows, messages);
    var byStatus := GroupByStatus(rows);
    var sent: int := if RecipientStatus.Sent in byStatus then byStatus[RecipientStatus.Sent] else 0;
    var failed: nat := if RecipientStatus.Failed in byStatus then byStatus[RecipientStatus.Failed] else 0;
    var delivered: nat, read: nat := 0, 0;
    var groups := GroupByMessage(rows, messages);
    var todo := groups.Keys;
    while todo != {}
      invariant todo <= groups.Keys
      invariant sent == CountStatus(rows, RecipientStatus.Sent) - Part(groups, groups.Keys - todo, MessageStatus.Failed)
      invariant failed == CountStatus(rows, RecipientStatus.Failed) + Part(groups, groups.Keys - todo, MessageStatus.Failed)
      invariant delivered == Part(groups, groups.Keys - todo, Delivered) + Part(groups, groups.Keys - todo, Read)
      invariant read == Part(groups, groups.Keys - todo, Read)
    {
      var status :| status in todo;
      todo := todo - {status};
      var n := groups[status];
      if status == MessageStatus.Failed {
        sent := sent - n;
        failed := failed + n;
      } else {
        if status in {Delivered, Read} { delivered := delivered + n; }
        if status in {Read} { read := read + n; }
      }
    }
    var queued := TotalOf(byStatus, rows);
    c := Counters(
      queued,
      if RecipientStatus.Pending in byStatus then byStatus[RecipientStatus.Pending] else 0,
      sent, delivered, read, failed,
      if Skipped in byStatus then byStatus[Skipped] else 0,
      if RecipientStatus.Cancelled in byStatus then byStatus[RecipientStatus.Cancelled] else 0);
    TallyIsReclassified(rows, messages);
  }

  function Value(groups: map<RecipientStatus, nat>, s: RecipientStatus): nat {
    if s in groups then groups[s] else 0
  }

  /** `sum(by_status.values())`. */
  method TotalOf(groups: map<RecipientStatus, nat>, ghost rows: seq<Recipient>) returns (total: nat)
    requires forall s :: Value(groups, s) == CountStatus(rows, s)
    ensures total == |rows|
  {
    total := Value(groups, RecipientStatus.Pending) + Value(groups, RecipientStatus.Sent)
             + Value(groups, RecipientStatus.Failed) + Value(groups, Skipped) + Value(groups, RecipientStatus.Cancelled);
    EveryRowHasAStatus(rows);
  }

  lemma {:induction false} EveryRowHasAStatus(rows: seq<Recipient>)
    ensures CountStatus(rows, RecipientStatus.Pending) + CountStatus(rows, RecipientStatus.Sent)
            + CountStatus(rows, RecipientStatus.Failed) + CountStatus(rows, Skipped)
            + CountStatus(rows, RecipientStatus.Cancelled) == |rows|
  {
    if rows != [] { EveryRowHasAStatus(rows[..|rows| - 1]); }
  }

  // ------------------------------------------------------------------ erasure

  /** The pending copies of one contact. */
  function PendingOf(rows: seq<Recipient>, contact: nat): nat {
    if rows == [] then 0
    else PendingOf(rows[..|rows| - 1], contact)
         + if rows[|rows| - 1].contact == Some(contact) && rows[|rows| - 1].status.Pending? then 1 else 0
  }

  /** `after` is `before` with one contact's pending copies moved to skipped; delivery figures may only fall. */
  predicate ErasedFigures(before: Counters, after: Counters, moved: nat) {
    && after.queued == before.queued && after.sent == before.sent
    && after.failed == before.failed && after.cancelled == before.cancelled
    && after.pending == before.pending - moved && after.skipped == before.skipped + moved
    && after.delivered <= before.delivered && after.read <= before.read
  }

  lemma ErasedShare(s: State, i: nat, contact: nat)
    requires i < |s.rows| && Owners(s)
    ensures ErasedFigures(Share(s.rows[i], s.messages),
                          Share(ErasedRow(s, s.rows[i], contact), Erase(s, contact).messages),
                          if s.rows[i].contact == Some(contact) && s.rows[i].status.Pending? then 1 else 0)
  {
    if s.rows[i].contact != Some(contact) && s.rows[i].message.Some? { NotTheirs(s, i, contact); }
  }

  lemma NotTheirs(s: State, i: nat, contact: nat)
    requires i < |s.rows| && Owners(s) && s.rows[i].contact != Some(contact) && s.rows[i].message.Some?
    ensures !Owns(s.rows, contact, s.rows[i].message.value)
  {
    forall j | 0 <= j < |s.rows| && j != i ensures s.rows[j].message != s.rows[i].message {
    }
  }

  lemma ErasedFiguresAdd(a: Counters, b: Counters, m: nat, c: Counters, d: Counters, n: nat)
    requires ErasedFigures(a, b, m) && ErasedFigures(c, d, n)
    ensures ErasedFigures(Add(a, c), Add(b, d), m + n)
  {
  }

  lemma TallyPrefix(rows: seq<Recipient>, messages: Messages, n: nat)
    requires 0 < n <= |rows|
    ensures Tally(rows[..n], messages) == Add(Tally(rows[..n - 1], messages), Share(rows[n - 1], messages))
  {
    assert rows[..n][..n - 1] == rows[..n - 1];
  }

  lemma {:induction false} ErasedTally(s: State, n: nat, contact: nat)
    requires n <= |s.rows| && Owners(s)
    ensures ErasedFigures(Tally(s.rows[..n], s.messages), Tally(Erase(s, contact).rows[..n], Erase(s, contact).messages),
                          PendingOf(s.rows[..n], contact))
  {
    if n > 0 {
      var t := Erase(s, contact);
      ErasedTally(s, n - 1, contact);
      ErasedShare(s, n - 1, contact);
      TallyPrefix(s.rows, s.messages, n);
      TallyPrefix(t.rows, t.messages, n);
      var moved := if s.rows[n - 1].contact == Some(contact) && s.rows[n - 1].status.Pending? then 1 else 0;
      ErasedFiguresAdd(Tally(s.rows[..n - 1], s.messages), Tally(t.rows[..n - 1], t.messages), PendingOf(s.rows[..n - 1], contact),
                       Share(s.rows[n - 1], s.messages), Share(t.rows[n - 1], t.messages), moved);
      assert s.rows[..n][..n - 1] == s.rows[..n - 1];
    }
  }

  /** Erasing a contact keeps queued, sent, failed and cancelled, and moves only its pending copies. */
  lemma ErasureKeepsCounters(stable: set<nat>, s: State, contact: nat)
    requires Inv(stable, s)
    ensures ErasedFigures(Tally(s.rows, s.messages), Tally(Erase(s, contact).rows, Erase(s, contact).messages),
                          PendingOf(s.rows, contact))
    ensures !HasRow(Erase(s, contact).rows, contact)
  {
    ErasedTally(s, |s.rows|, contact);
    assert s.rows[..|s.rows|] == s.rows;
    assert Erase(s, contact).rows[..|s.rows|] == Erase(s, contact).rows;
  }

  /** Where nothing is pending there is no pending copy to move. */
  lemma {:induction false} NothingPendingToMove(rows: seq<Recipient>, contact: nat)
    requires !AnyPending(rows)
    ensures PendingOf(rows, contact) == 0
  {
    if rows != [] {
      PendingSplits(rows);
      NothingPendingToMove(rows[..|rows| - 1], contact);
    }
  }
}
