/**
 How many sends the queue can hold for one stretch of time: along every run each send row
 stands at its candidate's own time unless the queue has moved it, and a window of length w
 holds at most floor(w * rate) + 1 own times.
 */
module BroadcastWindow {
  import opened Queue
  import opened Broadcast
  import opened BroadcastFacts
  import opened BroadcastPacing
  import BroadcastSafety

  // ------------------------------------------------------------------ where a send row stands

  /** The row stands at the time its contact's rank gives it. */
  ghost predicate Stands(full: seq<Candidate>, rate: real, s: State, k: Key)
    requires rate > 0.0 && k in s.queue && k.SendKey?
  {
    s.startedAt.Some? && exists i: nat :: OnTime(full, i, k.contact, s.startedAt.value, rate, s.queue[k].runAt)
  }

  /** Every send row stands at its own time, or where a step of the run put it back. */
  ghost predicate Accounted(full: seq<Candidate>, rate: real, s: State, done: seq<Step>)
    requires rate > 0.0
  {
    forall k | k in s.queue && k.SendKey? :: Stands(full, rate, s, k) || DoRequeue(k, s.queue[k].runAt) in done
  }

  /** Only putting a row back moves it. */
  lemma OldRowsKeepTheirTime(stable: set<nat>, s: State, step: Step, k: Key)
    requires Enabled(stable, s, step) && k in s.queue && k.SendKey? && k in Next(stable, s, step).queue
    ensures var at := Next(stable, s, step).queue[k].runAt;
            at == s.queue[k].runAt || step == DoRequeue(k, at)
  {
    match step
    case DoFanout(cursor, audience, size, now, rate, _) =>
      FanoutMovesNothing(s, cursor, audience, size, now, rate);
    case _ =>
  }

  lemma FanoutMovesNothing(s: State, cursor: int, audience: seq<Candidate>, size: nat, now: real, rate: real)
    requires rate > 0.0 && size > 0
    ensures forall k | k in s.queue :: k in Fanout(s, cursor, audience, size, now, rate).queue
                                       && Fanout(s, cursor, audience, size, now, rate).queue[k] == s.queue[k]
  {
    BroadcastSafety.ExpandedFacts(s, cursor, audience, size, now, rate);
  }

  lemma StepAccounts(full: seq<Candidate>, size: nat, rate: real, stable: set<nat>, s: State, step: Step, done: seq<Step>)
    requires Ascending(full) && size > 0 && rate > 0.0 && Paced(full, size, s) && BroadcastSafety.Inv(stable, s)
    requires Late(full, s.rows) == 0
    requires Enabled(stable, s, step) && Steady(full, size, rate, step) && Accounted(full, rate, s, done)
    ensures Accounted(full, rate, Next(stable, s, step), done + [step])
  {
    hide Next, Enabled, Late, Names, OnTime, ArmedEarly, IsBoundary, AtBoundary, BroadcastSafety.Inv, Fixed;
    var t := Next(stable, s, step);
    PacedStep(full, size, rate, stable, s, step);
    NoneLateOnTime(full, rate, s, t);
    forall k | k in t.queue && k.SendKey?
      ensures Stands(full, rate, t, k) || DoRequeue(k, t.queue[k].runAt) in done + [step]
    {
      if k in s.queue { OldRowsKeepTheirTime(stable, s, step, k); }
    }
  }

  lemma {:induction false} RunAccounts(
    full: seq<Candidate>, size: nat, rate: real, stable: set<nat>, s: State, steps: seq<Step>, done: seq<Step>)
    requires Ascending(full) && size > 0 && rate > 0.0 && Paced(full, size, s) && BroadcastSafety.Inv(stable, s)
    requires Late(full, s.rows) == 0
    requires Legal(stable, s, steps) && SteadyRun(full, size, rate, steps) && Accounted(full, rate, s, done)
    ensures Accounted(full, rate, Exec(stable, s, steps), done + steps)
    decreases |steps|
  {
    if steps == [] {
      assert done + steps == done;
    } else {
      StepAccounts(full, size, rate, stable, s, steps[0], done);
      PacedStep(full, size, rate, stable, s, steps[0]);
      SteadyStepMirrors(full, size, rate, stable, s, steps[0]);
      RunAccounts(full, size, rate, stable, Next(stable, s, steps[0]), steps[1..], done + [steps[0]]);
      assert done + [steps[0]] + steps[1..] == done + steps;
    }
  }

  // ------------------------------------------------------------------ how many are due at once

  predicate DueWithin(full: seq<Candidate>, i: nat, anchor: real, rate: real, from: real, to: real)
    requires i < |full| && rate > 0.0
  {
    full[i].verdict.Allowed? && from <= DueAt(full, i, anchor, rate) <= to
  }

  /** How many of the first `n` candidates are due inside a window. */
  function DueCount(full: seq<Candidate>, n: nat, anchor: real, rate: real, from: real, to: real): nat
    requires n <= |full| && rate > 0.0
  {
    if n == 0 then 0
    else DueCount(full, n - 1, anchor, rate, from, to)
         + if DueWithin(full, n - 1, anchor, rate, from, to) then 1 else 0
  }

  lemma {:induction false} RankGrows(full: seq<Candidate>, i: nat, j: nat)
    requires i <= j <= |full|
    ensures Rank(full, i) <= Rank(full, j)
    ensures i < j && full[i].verdict.Allowed? ==> Rank(full, i) < Rank(full, j)
    decreases j
  {
    if i < j { RankGrows(full, i, j - 1); }
  }

  /** The due candidates of a window span at least as many ranks as there are of them. */
  lemma {:induction false} DueSpan(full: seq<Candidate>, n: nat, anchor: real, rate: real, from: real, to: real)
    returns (first: nat, last: nat)
    requires n <= |full| && rate > 0.0 && DueCount(full, n, anchor, rate, from, to) > 0
    ensures first <= last < n
    ensures DueWithin(full, first, anchor, rate, from, to) && DueWithin(full, last, anchor, rate, from, to)
    ensures DueCount(full, n, anchor, rate, from, to) <= Rank(full, last) - Rank(full, first) + 1
    decreases n
  {
    if DueCount(full, n - 1, anchor, rate, from, to) == 0 {
      first, last := n - 1, n - 1;
    } else {
      first, last := DueSpan(full, n - 1, anchor, rate, from, to);
      if DueWithin(full, n - 1, anchor, rate, from, to) {
        RankGrows(full, last, n - 1);
        last := n - 1;
      }
    }
  }

  /** At most floor(w * rate) + 1 candidates have their own time inside a window of length w. */
  lemma FewAreDue(full: seq<Candidate>, anchor: real, rate: real, from: real, w: real)
    requires rate > 0.0 && w >= 0.0
    ensures DueCount(full, |full|, anchor, rate, from, from + w) <= (w * rate).Floor + 1
  {
    if DueCount(full, |full|, anchor, rate, from, from + w) > 0 {
      var first, last := DueSpan(full, |full|, anchor, rate, from, from + w);
      RankGrows(full, first, last);
      SpanFits(Rank(full, last) - Rank(full, first), Rank(full, first) as real / rate, Rank(full, last) as real / rate,
               Rank(full, first), rate, w);
    } else {
      assert w * rate >= 0.0;
    }
  }

  lemma SpanFits(d: int, early: real, late: real, rank: int, rate: real, w: real)
    requires rate > 0.0 && early == rank as real / rate && late == (rank + d) as real / rate && late - early <= w
    ensures d <= (w * rate).Floor
  {
    assert early * rate == rank as real && late * rate == (rank + d) as real;
    assert (late - early) * rate == d as real;
    assert (late - early) * rate <= w * rate;
  }

  // ------------------------------------------------------------------ the rows of a window

  /** The send rows whose time falls in a window. */
  function RowsDue(s: State, from: real, to: real): set<Key> {
    set k | k in s.queue && k.SendKey? && from <= s.queue[k].runAt <= to
  }

  /** The rows a run has put back to a time inside the window. */
  function MovedInto(steps: seq<Step>, from: real, to: real): set<Key> {
    set step | step in steps && step.DoRequeue? && from <= step.at <= to :: step.key
  }

  /** The keys of the first `n` candidates whose own time falls in the window. */
  function OwnKeys(full: seq<Candidate>, n: nat, anchor: real, rate: real, from: real, to: real): (keys: set<Key>)
    requires n <= |full| && rate > 0.0
    ensures |keys| <= DueCount(full, n, anchor, rate, from, to)
    ensures forall i | 0 <= i < n && DueWithin(full, i, anchor, rate, from, to) :: SendKey(full[i].contact) in keys
  {
    if n == 0 then {}
    else OwnKeys(full, n - 1, anchor, rate, from, to)
         + if DueWithin(full, n - 1, anchor, rate, from, to) then {SendKey(full[n - 1].contact)} else {}
  }

  lemma RowsAreOwnOrMoved(full: seq<Candidate>, rate: real, s: State, steps: seq<Step>, from: real, to: real)
    requires rate > 0.0 && Accounted(full, rate, s, steps)
    ensures s.startedAt.Some? ==>
              RowsDue(s, from, to) <= OwnKeys(full, |full|, s.startedAt.value, rate, from, to) + MovedInto(steps, from, to)
    ensures s.startedAt.None? ==> RowsDue(s, from, to) <= MovedInto(steps, from, to)
  {
    forall k | k in RowsDue(s, from, to)
      ensures k in MovedInto(steps, from, to)
              || (s.startedAt.Some? && k in OwnKeys(full, |full|, s.startedAt.value, rate, from, to))
    {
      if Stands(full, rate, s, k) {
        var i: nat :| OnTime(full, i, k.contact, s.startedAt.value, rate, s.queue[k].runAt);
        assert DueWithin(full, i, s.startedAt.value, rate, from, to);
        assert SendKey(full[i].contact) == k;
      } else {
        var step := DoRequeue(k, s.queue[k].runAt);
        assert step in steps && step.key in MovedInto(steps, from, to);
      }
    }
  }

  lemma UnionIsNoLarger<T>(a: set<T>, b: set<T>, c: set<T>)
    requires a <= b + c
    ensures |a| <= |b| + |c|
  {
    SubsetIsNoLarger(a, b + c);
    assert b + c == b + (c - b);
    SubsetIsNoLarger(c - b, c);
  }

  lemma {:induction false} SubsetIsNoLarger<T>(a: set<T>, b: set<T>)
    requires a <= b
    ensures |a| <= |b|
  {
    if a != {} {
      var x :| x in a;
      SubsetIsNoLarger(a - {x}, b - {x});
    }
  }

  lemma NothingToAccount(full: seq<Candidate>, rate: real)
    requires rate > 0.0
    ensures Accounted(full, rate, DRAFT, [])
  {
  }

  lemma FewRowsAreDue(full: seq<Candidate>, rate: real, s: State, steps: seq<Step>, from: real, w: real)
    requires rate > 0.0 && w >= 0.0 && Accounted(full, rate, s, steps)
    ensures |RowsDue(s, from, from + w)| <= (w * rate).Floor + 1 + |MovedInto(steps, from, from + w)|
  {
    hide *;
    RowsAreOwnOrMoved(full, rate, s, steps, from, from + w);
    if s.startedAt.Some? {
      FewAreDue(full, s.startedAt.value, rate, from, w);
      var own := OwnKeys(full, |full|, s.startedAt.value, rate, from, from + w);
      UnionIsNoLarger(RowsDue(s, from, from + w), own, MovedInto(steps, from, from + w));
    } else {
      SubsetIsNoLarger(RowsDue(s, from, from + w), MovedInto(steps, from, from + w));
      assert w * rate >= 0.0;
    }
  }

  /**
   Along every run over one audience, at one rate and with chunks of any one size, each send
   row stands at its own time or where the queue put it back, and a window of length w holds
   at most floor(w * rate) + 1 of them and one more for each row put back into it.
   */
  lemma WindowHoldsAtMost(
    full: seq<Candidate>, size: nat, rate: real, stable: set<nat>, steps: seq<Step>, from: real, w: real)
    requires Ascending(full) && size > 0 && rate > 0.0 && w >= 0.0
    requires Legal(stable, DRAFT, steps) && SteadyRun(full, size, rate, steps)
    ensures var s := Exec(stable, DRAFT, steps);
            && Accounted(full, rate, s, steps)
            && |RowsDue(s, from, from + w)| <= (w * rate).Floor + 1 + |MovedInto(steps, from, from + w)|
  {
    hide *;
    DraftPaces(full, size, stable);
    NothingToAccount(full, rate);
    RunAccounts(full, size, rate, stable, DRAFT, steps, []);
    assert [] + steps == steps;
    FewRowsAreDue(full, rate, Exec(stable, DRAFT, steps), steps, from, w);
  }
}
