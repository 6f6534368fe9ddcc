/**
 The active-contact meter (apps/billing/metering.py): a set of (contact, month) rows, a
 gate that reads it before a send and a mark that adds to it once the send is accepted.
 */
module Metering {
  import opened Queue

  /** Who put a row there first; bookkeeping of the model, not a column. */
  datatype Origin = Inbound | Outbound

  /** An `ActiveContactMonth`. Months are numbered. */
  datatype Row = Row(contact: nat, period: nat, origin: Origin)

  /** An outbound send: asking at the gate with the month it read, then let through. */
  datatype Send = Send(contact: nat, period: nat, passed: bool)

  /**
   `limit` is the plan's allowance, `None` for an unlimited plan; `gone` the erased contacts;
   `failOpens` the sends the gate let through this month because it could not read.
   */
  datatype State = State(limit: Option<nat>, rows: seq<Row>, now: nat, sends: map<nat, Send>, gone: set<nat>, failOpens: nat)

  datatype MarkOutcome = Marked | Already | NotMetered | MarkFailed

  // ------------------------------------------------------------------ reading

  /** `is_contact_active`. */
  predicate Active(rows: seq<Row>, contact: nat, period: nat) {
    exists k :: 0 <= k < |rows| && rows[k].contact == contact && rows[k].period == period
  }

  /** The rows of a month first put there by one side. */
  function CountBy(rows: seq<Row>, period: nat, origin: Origin): nat {
    if rows == [] then 0
    else
      var front, last := rows[..|rows| - 1], rows[|rows| - 1];
      CountBy(front, period, origin) + if last.period == period && last.origin == origin then 1 else 0
  }

  /** `active_contact_count`: a count of rows. */
  function ActiveCount(rows: seq<Row>, period: nat): nat {
    if rows == [] then 0
    else
      var front, last := rows[..|rows| - 1], rows[|rows| - 1];
      ActiveCount(front, period) + if last.period == period then 1 else 0
  }

  /** `allows_reaching`. */
  predicate AllowsReaching(limit: Option<nat>, rows: seq<Row>, contact: nat, period: nat) {
    limit.None? || Active(rows, contact, period) || ActiveCount(rows, period) < limit.value
  }

  // ------------------------------------------------------------------ writing

  /** `mark_reached`; a mark of an erased contact breaks the foreign key and fails. */
  function Outcome(s: State, contact: nat, fails: bool): MarkOutcome {
    if s.limit.None? then NotMetered
    else if fails || contact in s.gone then MarkFailed
    else if Active(s.rows, contact, s.now) then Already
    else Marked
  }

  function Mark(s: State, contact: nat, fails: bool, origin: Origin): seq<Row> {
    if Outcome(s, contact, fails).Marked? then s.rows + [Row(contact, s.now, origin)] else s.rows
  }

  /** The rows left when a contact is erased. */
  function Without(rows: seq<Row>, contact: nat): seq<Row> {
    if rows == [] then []
    else
      var front, last := rows[..|rows| - 1], rows[|rows| - 1];
      if last.contact == contact then Without(front, contact) else Without(front, contact) + [last]
  }

  lemma {:induction false} ErasedRows(rows: seq<Row>, contact: nat)
    ensures forall row :: row in Without(rows, contact) <==> row in rows && row.contact != contact
  {
    if rows != [] {
      var front, last := rows[..|rows| - 1], rows[|rows| - 1];
      ErasedRows(front, contact);
      assert rows == front + [last];
    }
  }

  // ------------------------------------------------------------------ steps

  datatype Step =
    | Ask(id: nat, contact: nat)                        // a send reads the current month
    | Decide(id: nat, unreadable: bool)                 // then the rows, or fails open
    | Finish(id: nat, accepted: bool, fails: bool)      // the platform answered; mark if accepted
    | Receive(contact: nat, fails: bool)                // an inbound message
    | NextMonth
    | Erase(contact: nat)

  /** At most `k` sends are between the gate and the mark. */
  predicate Enabled(s: State, step: Step, k: nat) {
    match step
    case Ask(id, _) => id !in s.sends && |s.sends| < k
    case Decide(id, _) => id in s.sends && !s.sends[id].passed
    case Finish(id, _, _) => id in s.sends && s.sends[id].passed
    case Receive(contact, _) => contact !in s.gone
    case NextMonth => true
    case Erase(contact) => contact !in s.gone
  }

  function Next(s: State, step: Step): State {
    match step
    case Ask(id, contact) => s.(sends := s.sends[id := Send(contact, s.now, false)])
    case Decide(id, unreadable) =>
      if id !in s.sends then s
      else
        var send := s.sends[id];
        if unreadable && s.limit.Some? then
          s.(sends := s.sends[id := send.(passed := true)], failOpens := s.failOpens + 1)
        else if AllowsReaching(s.limit, s.rows, send.contact, send.period) then
          s.(sends := s.sends[id := send.(passed := true)])
        else s.(sends := s.sends - {id})
    case Finish(id, accepted, fails) =>
      if id !in s.sends then s
      else
        s.(sends := s.sends - {id}, rows := if accepted then Mark(s, s.sends[id].contact, fails, Outbound) else s.rows)
    case Receive(contact, fails) => s.(rows := Mark(s, contact, fails, Inbound))
    case NextMonth => s.(now := s.now + 1, failOpens := 0)
    case Erase(contact) => s.(rows := Without(s.rows, contact), gone := s.gone + {contact})
  }

  ghost predicate Legal(s: State, steps: seq<Step>, k: nat)
    decreases |steps|
  {
    steps == []
    || (Legal(s, steps[..|steps| - 1], k) && Enabled(Exec(s, steps[..|steps| - 1]), steps[|steps| - 1], k))
  }

  function Exec(s: State, steps: seq<Step>): State
    decreases |steps|
  {
    if steps == [] then s else Next(Exec(s, steps[..|steps| - 1]), steps[|steps| - 1])
  }

  function Fresh(limit: Option<nat>, now: nat): State {
    State(limit, [], now, map[], {}, 0)
  }

  // ------------------------------------------------------------------ nobody is counted twice

  /** The table's unique constraint. */
  ghost predicate Unique(rows: seq<Row>) {
    forall i, j | 0 <= i < j < |rows| :: rows[i].contact != rows[j].contact || rows[i].period != rows[j].period
  }

  ghost function ContactsIn(rows: seq<Row>, period: nat): set<nat> {
    set k | 0 <= k < |rows| && rows[k].period == period :: rows[k].contact
  }

  /** The count of rows is the number of distinct people. */
  lemma {:induction false} CountsPeople(rows: seq<Row>, period: nat)
    requires Unique(rows)
    ensures ActiveCount(rows, period) == |ContactsIn(rows, period)|
  {
    if rows != [] {
      var front, last := rows[..|rows| - 1], rows[|rows| - 1];
      CountsPeople(front, period);
      if last.period == period {
        assert last.contact !in ContactsIn(front, period);
        assert ContactsIn(rows, period) == ContactsIn(front, period) + {last.contact} by {
          assert rows[|rows| - 1] == last;
          assert forall k | 0 <= k < |front| :: rows[k] == front[k];
        }
      } else {
        assert ContactsIn(rows, period) == ContactsIn(front, period) by {
          assert forall k | 0 <= k < |front| :: rows[k] == front[k];
        }
      }
    }
  }

  lemma {:induction false} CountSplits(rows: seq<Row>, period: nat)
    ensures ActiveCount(rows, period) == CountBy(rows, period, Inbound) + CountBy(rows, period, Outbound)
  {
    if rows != [] { CountSplits(rows[..|rows| - 1], period); }
  }

  lemma {:induction false} NoRowsNoCount(rows: seq<Row>, period: nat, origin: Origin)
    requires forall k | 0 <= k < |rows| :: rows[k].period != period
    ensures CountBy(rows, period, origin) == 0
  {
    if rows != [] { NoRowsNoCount(rows[..|rows| - 1], period, origin); }
  }

  lemma {:induction false} WithoutFacts(rows: seq<Row>, contact: nat)
    ensures var left := Without(rows, contact);
            && (forall k | 0 <= k < |left| :: left[k].contact != contact && left[k] in rows)
            && (forall k | 0 <= k < |rows| && rows[k].contact != contact :: rows[k] in left)
            && (Unique(rows) ==> Unique(left))
  {
    if rows != [] { WithoutFacts(rows[..|rows| - 1], contact); }
  }

  lemma {:induction false} WithoutCounts(rows: seq<Row>, contact: nat, period: nat, origin: Origin)
    ensures CountBy(Without(rows, contact), period, origin) <= CountBy(rows, period, origin)
  {
    if rows != [] {
      var front, last := rows[..|rows| - 1], rows[|rows| - 1];
      WithoutCounts(front, contact, period, origin);
      CountAppend(Without(front, contact), last, period, origin);
    }
  }

  lemma CountAppend(rows: seq<Row>, row: Row, period: nat, origin: Origin)
    ensures CountBy(rows + [row], period, origin)
            == CountBy(rows, period, origin) + if row.period == period && row.origin == origin then 1 else 0
  {
    assert (rows + [row])[..|rows|] == rows;
  }

  // ------------------------------------------------------------------ the bound

  /** A send that would add a row of this month, and has asked all it will ask of this month. */
  predicate Presses(s: State, send: Send) {
    !Active(s.rows, send.contact, s.now) && send.contact !in s.gone && (send.passed || send.period != s.now)
  }

  ghost function Pressing(s: State): set<nat> {
    set id | id in s.sends && Presses(s, s.sends[id])
  }

  /** One below the limit, or nothing on a plan that allows nobody. */
  function Headroom(limit: nat): nat {
    if limit == 0 then 0 else limit - 1
  }

  ghost predicate Tidy(s: State) {
    && Unique(s.rows)
    && (forall i | 0 <= i < |s.rows| :: s.rows[i].period <= s.now && s.rows[i].contact !in s.gone)
    && (forall id | id in s.sends :: s.sends[id].period <= s.now)
    && (s.limit.None? ==> s.rows == [])
  }

  ghost predicate Bounded(s: State, k: nat) {
    && |s.sends| <= k
    && (s.limit.Some? ==>
          CountBy(s.rows, s.now, Outbound) + |Pressing(s)| <= Headroom(s.limit.value) + k + s.failOpens)
  }

  lemma SmallerSet(a: set<nat>, b: set<nat>)
    requires a <= b
    ensures |a| <= |b|
  {
    if x :| x in b && x !in a {
      SmallerSet(a, b - {x});
    } else {
      assert a == b;
    }
  }

  lemma StepTidy(s: State, step: Step, k: nat)
    requires Tidy(s) && Enabled(s, step, k)
    ensures Tidy(Next(s, step))
  {
    if step.Erase? {
      WithoutFacts(s.rows, step.contact);
    }
  }

  /** Marking `contact` from either side: an outbound mark is paid for by the send it ends. */
  lemma MarkCounts(s: State, contact: nat, fails: bool, origin: Origin)
    ensures var rows := Mark(s, contact, fails, origin);
            && CountBy(rows, s.now, Outbound) ==
               CountBy(s.rows, s.now, Outbound) + (if Outcome(s, contact, fails).Marked? && origin.Outbound? then 1 else 0)
            && (forall c: nat | Active(s.rows, c, s.now) :: Active(rows, c, s.now))
            && (Outcome(s, contact, fails).Marked? ==> Active(rows, contact, s.now))
  {
    var rows := Mark(s, contact, fails, origin);
    if Outcome(s, contact, fails).Marked? {
      assert rows[..|rows| - 1] == s.rows;
      assert rows[|s.rows|] == Row(contact, s.now, origin);
    }
    forall c: nat | Active(s.rows, c, s.now) ensures Active(rows, c, s.now) {
      var i :| 0 <= i < |s.rows| && s.rows[i].contact == c && s.rows[i].period == s.now;
      assert rows[i] == s.rows[i];
    }
  }

  /** Finishing takes nobody into the press, and takes its own send out of it if it adds a row. */
  lemma FinishPresses(s: State, id: nat, accepted: bool, fails: bool)
    requires id in s.sends && s.sends[id].passed
    ensures var t := Next(s, Finish(id, accepted, fails));
            var marked := accepted && Outcome(s, s.sends[id].contact, fails).Marked?;
            && t.sends.Keys <= s.sends.Keys
            && Pressing(t) <= Pressing(s) - (if marked then {id} else {})
            && (marked && s.sends[id].period == s.now ==> id in Pressing(s))
  {
    MarkCounts(s, s.sends[id].contact, fails, Outbound);
    hide Mark, CountBy;
  }

  lemma FinishBounded(s: State, id: nat, accepted: bool, fails: bool, k: nat)
    requires Tidy(s) && Bounded(s, k) && Enabled(s, Finish(id, accepted, fails), k)
    ensures Bounded(Next(s, Finish(id, accepted, fails)), k)
  {
    var t := Next(s, Finish(id, accepted, fails));
    var contact := s.sends[id].contact;
    MarkCounts(s, contact, fails, Outbound);
    FinishPresses(s, id, accepted, fails);
    SmallerSet(t.sends.Keys, s.sends.Keys);
    if accepted && Outcome(s, contact, fails).Marked? {
      assert id in Pressing(s);
      hide Pressing;
      SmallerSet(Pressing(t), Pressing(s) - {id});
    } else {
      hide Pressing;
      SmallerSet(Pressing(t), Pressing(s));
    }
  }

  lemma DecideBounded(s: State, id: nat, unreadable: bool, k: nat)
    requires Tidy(s) && Bounded(s, k) && Enabled(s, Decide(id, unreadable), k)
    ensures Bounded(Next(s, Decide(id, unreadable)), k)
  {
    var t := Next(s, Decide(id, unreadable));
    var send := s.sends[id];
    SmallerSet(t.sends.Keys, s.sends.Keys);
    if s.limit.Some? {
      assert Pressing(t) <= Pressing(s) + {id};
      SmallerSet(Pressing(t), Pressing(s) + {id});
      if !unreadable && id in Pressing(t) && id !in Pressing(s) {
        assert !Active(s.rows, send.contact, send.period);
        CountSplits(s.rows, s.now);
        SmallerSet(Pressing(t), t.sends.Keys);
      } else if !unreadable {
        assert Pressing(t) <= Pressing(s);
        SmallerSet(Pressing(t), Pressing(s));
      }
    }
  }

  lemma NextMonthBounded(s: State, k: nat)
    requires Tidy(s) && Bounded(s, k)
    ensures Bounded(Next(s, NextMonth), k)
  {
    var t := Next(s, NextMonth);
    NoRowsNoCount(s.rows, t.now, Outbound);
    SmallerSet(Pressing(t), t.sends.Keys);
  }

  lemma EraseBounded(s: State, contact: nat, k: nat)
    requires Tidy(s) && Bounded(s, k) && contact !in s.gone
    ensures Bounded(Next(s, Erase(contact)), k)
  {
    var t := Next(s, Erase(contact));
    WithoutFacts(s.rows, contact);
    WithoutCounts(s.rows, contact, s.now, Outbound);
    forall c: nat | c != contact && Active(s.rows, c, s.now) ensures Active(t.rows, c, s.now) {
      WithoutKeeps(s.rows, contact, c, s.now);
    }
    assert Pressing(t) <= Pressing(s);
    SmallerSet(Pressing(t), Pressing(s));
  }

  lemma AskBounded(s: State, id: nat, contact: nat, k: nat)
    requires Tidy(s) && Bounded(s, k) && Enabled(s, Ask(id, contact), k)
    ensures Bounded(Next(s, Ask(id, contact)), k)
  {
    var t := Next(s, Ask(id, contact));
    assert t.sends.Keys == s.sends.Keys + {id};
    assert Pressing(t) == Pressing(s);
  }

  lemma ReceiveBounded(s: State, contact: nat, fails: bool, k: nat)
    requires Tidy(s) && Bounded(s, k)
    ensures Bounded(Next(s, Receive(contact, fails)), k)
  {
    var t := Next(s, Receive(contact, fails));
    MarkCounts(s, contact, fails, Inbound);
    assert Pressing(t) <= Pressing(s);
    SmallerSet(Pressing(t), Pressing(s));
  }

  lemma {:induction false} RunBounded(s: State, steps: seq<Step>, k: nat)
    requires Tidy(s) && Bounded(s, k) && Legal(s, steps, k)
    ensures Tidy(Exec(s, steps)) && Bounded(Exec(s, steps), k) && Exec(s, steps).limit == s.limit
    decreases |steps|
  {
    if steps != [] {
      var front, last := steps[..|steps| - 1], steps[|steps| - 1];
      RunBounded(s, front, k);
      var t := Exec(s, front);
      StepTidy(t, last, k);
      match last
      case Ask(id, contact) => AskBounded(t, id, contact, k);
      case Decide(id, unreadable) => DecideBounded(t, id, unreadable, k);
      case Finish(id, accepted, fails) => FinishBounded(t, id, accepted, fails, k);
      case Receive(contact, fails) => ReceiveBounded(t, contact, fails, k);
      case NextMonth => NextMonthBounded(t, k);
      case Erase(contact) => EraseBounded(t, contact, k);
    }
  }

  /**
   Bounded over-admission. With at most `k` sends between gate and mark, the people active
   this month never outnumber `limit - 1 + k` plus those an inbound message put there first
   plus those let through because the gate could not read.
   */
  lemma OverAdmissionIsBounded(limit: nat, start: nat, steps: seq<Step>, k: nat)
    requires Legal(Fresh(Some(limit), start), steps, k)
    ensures var t := Exec(Fresh(Some(limit), start), steps);
            |ContactsIn(t.rows, t.now)| <= Headroom(limit) + k + CountBy(t.rows, t.now, Inbound) + t.failOpens
  {
    var s := Fresh(Some(limit), start);
    assert Pressing(s) == {};
    RunBounded(s, steps, k);
    var t := Exec(s, steps);
    CountSplits(t.rows, t.now);
    CountsPeople(t.rows, t.now);
  }

  /** An unlimited plan is never metered. */
  lemma UnlimitedIsNotMetered(start: nat, steps: seq<Step>, k: nat)
    requires Legal(Fresh(None, start), steps, k)
    ensures Exec(Fresh(None, start), steps).rows == []
  {
    RunBounded(Fresh(None, start), steps, k);
  }

  lemma StaysCounted(s: State, contact: nat, step: Step, k: nat)
    requires Enabled(s, step, k) && Active(s.rows, contact, s.now) && !step.NextMonth? && step != Erase(contact)
    ensures Next(s, step).now == s.now && Active(Next(s, step).rows, contact, s.now)
  {
    hide Mark, Active, Without, AllowsReaching, Outcome;
    match step
    case Finish(id, _, fails) => MarkCounts(s, s.sends[id].contact, fails, Outbound);
    case Receive(other, fails) => MarkCounts(s, other, fails, Inbound);
    case Erase(other) => WithoutKeeps(s.rows, other, contact, s.now);
    case _ =>
  }

  lemma CountedPasses(s: State, id: nat, unreadable: bool)
    requires id in s.sends && Active(s.rows, s.sends[id].contact, s.sends[id].period)
    ensures id in Next(s, Decide(id, unreadable)).sends && Next(s, Decide(id, unreadable)).sends[id].passed
  {
    hide Active;
  }

  /** Within the month and short of an erasure, a counted contact stays counted and every send to it that asks is let through. */
  lemma {:induction false} CountedContactPasses(s: State, contact: nat, steps: seq<Step>, k: nat)
    requires Legal(s, steps, k) && Active(s.rows, contact, s.now)
    requires forall i | 0 <= i < |steps| :: !steps[i].NextMonth? && steps[i] != Erase(contact)
    ensures var t := Exec(s, steps);
            && t.now == s.now && Active(t.rows, contact, t.now)
            && forall id: nat, unreadable: bool | id in t.sends && t.sends[id] == Send(contact, t.now, false) ::
                 var u := Next(t, Decide(id, unreadable)); id in u.sends && u.sends[id].passed
    decreases |steps|
  {
    hide Active, Next, Enabled;
    if steps != [] {
      var front, last := steps[..|steps| - 1], steps[|steps| - 1];
      assert forall i | 0 <= i < |front| :: front[i] == steps[i];
      CountedContactPasses(s, contact, front, k);
      StaysCounted(Exec(s, front), contact, last, k);
    }
    var t := Exec(s, steps);
    forall id: nat, unreadable: bool | id in t.sends && t.sends[id] == Send(contact, t.now, false)
      ensures id in Next(t, Decide(id, unreadable)).sends && Next(t, Decide(id, unreadable)).sends[id].passed
    {
      CountedPasses(t, id, unreadable);
    }
  }

  lemma WithoutKeeps(rows: seq<Row>, other: nat, contact: nat, period: nat)
    requires other != contact && Active(rows, contact, period)
    ensures Active(Without(rows, other), contact, period)
  {
    WithoutFacts(rows, other);
    var i :| 0 <= i < |rows| && rows[i].contact == contact && rows[i].period == period;
    assert rows[i] in Without(rows, other);
  }

  // ------------------------------------------------------------------ the bound is met

  ghost predicate ReachedBy(s: State, steps: seq<Step>, t: State, k: nat) {
    Legal(s, steps, k) && Exec(s, steps) == t
  }

  ghost predicate Reaches(s: State, t: State, k: nat) {
    exists steps :: ReachedBy(s, steps, t, k)
  }

  lemma OneMore(s: State, t: State, step: Step, k: nat)
    requires Reaches(s, t, k) && Enabled(t, step, k)
    ensures Reaches(s, Next(t, step), k)
  {
    var front :| ReachedBy(s, front, t, k);
    assert (front + [step])[..|front|] == front;
    assert ReachedBy(s, front + [step], Next(t, step), k);
  }

  /** A new contact asks and is let through while the month has room. */
  lemma PassOne(s: State, t: State, id: nat, k: nat)
    requires Reaches(s, t, k) && id !in t.sends && |t.sends| < k
    requires t.limit.Some? && ActiveCount(t.rows, t.now) < t.limit.value
    ensures Reaches(s, t.(sends := t.sends[id := Send(id, t.now, true)]), k)
  {
    OneMore(s, t, Ask(id, id), k);
    OneMore(s, Next(t, Ask(id, id)), Decide(id, false), k);
    assert Next(Next(t, Ask(id, id)), Decide(id, false)) == t.(sends := t.sends[id := Send(id, t.now, true)]);
  }

  /** A send that was let through is accepted and marks its contact. */
  lemma FinishOne(s: State, t: State, id: nat, k: nat)
    requires Reaches(s, t, k) && id in t.sends && t.sends[id] == Send(id, t.now, true)
    requires t.limit.Some? && !Active(t.rows, id, t.now) && id !in t.gone
    ensures Reaches(s, t.(sends := t.sends - {id}, rows := t.rows + [Row(id, t.now, Outbound)]), k)
  {
    OneMore(s, t, Finish(id, true, false), k);
  }

  /** Outbound rows for the contacts numbered below `n`. */
  ghost function Rows(start: nat, n: nat): seq<Row> {
    if n == 0 then [] else Rows(start, n - 1) + [Row(n - 1, start, Outbound)]
  }

  lemma {:induction false} RowsFacts(start: nat, n: nat)
    ensures ActiveCount(Rows(start, n), start) == n && CountBy(Rows(start, n), start, Inbound) == 0
    ensures forall i | 0 <= i < |Rows(start, n)| :: Rows(start, n)[i].contact < n
  {
    if n > 0 {
      RowsFacts(start, n - 1);
      assert Rows(start, n)[..|Rows(start, n)| - 1] == Rows(start, n - 1);
    }
  }

  /** Sends to the contacts from `base` up to `top`, all of them let through. */
  ghost function Flight(base: nat, start: nat, top: nat): map<nat, Send> {
    map id | base <= id < top :: Send(id, start, true)
  }

  lemma {:induction false} FlightSize(base: nat, start: nat, top: nat)
    requires base <= top
    ensures |Flight(base, start, top)| == top - base
    decreases top - base
  {
    if base < top {
      FlightSize(base, start, top - 1);
      assert Flight(base, start, top) == Flight(base, start, top - 1)[top - 1 := Send(top - 1, start, true)];
    } else {
      assert Flight(base, start, top) == map[];
    }
  }

  /** `n` people active and the contacts from `n` to `top` in flight. */
  ghost function Snapshot(limit: nat, start: nat, n: nat, top: nat): State {
    State(Some(limit), Rows(start, n), start, Flight(n, start, top), {}, 0)
  }

  lemma FillOne(s: State, limit: nat, start: nat, n: nat, k: nat)
    requires n + 1 < limit && k > 0 && Reaches(s, Snapshot(limit, start, n, n), k)
    ensures Reaches(s, Snapshot(limit, start, n + 1, n + 1), k)
  {
    var t := Snapshot(limit, start, n, n);
    var send := Send(n, start, true);
    RowsFacts(start, n);
    hide Reaches, ReachedBy;
    assert t.sends == map[];
    PassOne(s, t, n, k);
    FinishOne(s, t.(sends := t.sends[n := send]), n, k);
    assert Snapshot(limit, start, n + 1, n + 1) == t.(sends := t.sends[n := send] - {n}, rows := t.rows + [Row(n, start, Outbound)]);
  }

  lemma {:induction false} FillTo(limit: nat, start: nat, n: nat, k: nat)
    requires n < limit && k > 0
    ensures Reaches(Fresh(Some(limit), start), Snapshot(limit, start, n, n), k)
  {
    if n == 0 {
      assert Snapshot(limit, start, 0, 0) == Fresh(Some(limit), start);
      assert ReachedBy(Fresh(Some(limit), start), [], Fresh(Some(limit), start), k);
    } else {
      hide *;
      FillTo(limit, start, n - 1, k);
      FillOne(Fresh(Some(limit), start), limit, start, n - 1, k);
    }
  }

  lemma FlightGrows(base: nat, start: nat, top: nat)
    requires base <= top
    ensures top !in Flight(base, start, top)
    ensures Flight(base, start, top)[top := Send(top, start, true)] == Flight(base, start, top + 1)
  {
  }

  lemma PassNext(s: State, limit: nat, start: nat, n: nat, top: nat, k: nat)
    requires n < limit && n <= top < n + k && Reaches(s, Snapshot(limit, start, n, top), k)
    ensures Reaches(s, Snapshot(limit, start, n, top + 1), k)
  {
    var t := Snapshot(limit, start, n, top);
    assert |t.sends| < k && top !in t.sends by {
      FlightSize(n, start, top);
    }
    assert ActiveCount(t.rows, t.now) < limit by {
      RowsFacts(start, n);
    }
    PassOne(s, t, top, k);
    FlightGrows(n, start, top);
  }

  lemma {:induction false} PassAll(s: State, limit: nat, start: nat, n: nat, j: nat, k: nat)
    requires Reaches(s, Snapshot(limit, start, n, n), k) && n < limit && j <= k
    ensures Reaches(s, Snapshot(limit, start, n, n + j), k)
  {
    if j > 0 {
      PassAll(s, limit, start, n, j - 1, k);
      PassNext(s, limit, start, n, n + j - 1, k);
    }
  }

  lemma FinishNext(s: State, limit: nat, start: nat, n: nat, top: nat, k: nat)
    requires n < top && Reaches(s, Snapshot(limit, start, n, top), k)
    ensures Reaches(s, Snapshot(limit, start, n + 1, top), k)
  {
    hide Reaches, ReachedBy;
    RowsFacts(start, n);
    FinishOne(s, Snapshot(limit, start, n, top), n, k);
    hide ActiveCount, CountBy;
    assert Flight(n, start, top) - {n} == Flight(n + 1, start, top);
  }

  lemma {:induction false} FinishAll(limit: nat, start: nat, n: nat, top: nat, k: nat)
    requires n <= top && Reaches(Fresh(Some(limit), start), Snapshot(limit, start, n, top), k)
    ensures Reaches(Fresh(Some(limit), start), Snapshot(limit, start, top, top), k)
    decreases top - n
  {
    if n < top {
      hide *;
      FinishNext(Fresh(Some(limit), start), limit, start, n, top, k);
      FinishAll(limit, start, n + 1, top, k);
    }
  }

  /** For every limit and every number of sends in flight, some run reaches the bound exactly. */
  lemma BoundIsMet(limit: nat, start: nat, k: nat)
    requires limit > 0 && k > 0
    ensures exists t: State ::
              && Reaches(Fresh(Some(limit), start), t, k)
              && t.now == start && t.failOpens == 0 && CountBy(t.rows, start, Inbound) == 0
              && ActiveCount(t.rows, start) == limit - 1 + k
  {
    hide ReachedBy;
    FillTo(limit, start, limit - 1, k);
    PassAll(Fresh(Some(limit), start), limit, start, limit - 1, k, k);
    FinishAll(limit, start, limit - 1, limit - 1 + k, k);
    RowsFacts(start, limit - 1 + k);
  }
}
