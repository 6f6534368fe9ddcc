/**
 What a send-time skip does to the pacing: the offset of a chunk is counted from rows that
 are not skipped, so each eligible contact skipped since pulls the next chunk one place earlier.
 */
module BroadcastLateSkips {
  import opened Queue
  import opened Broadcast
  import opened BroadcastFacts
  import opened BroadcastPacing
  import BroadcastSafety
  import BroadcastWindow

  /**
   After any run over one audience, whoever was skipped on the way: a step arms an eligible
   contact as many places early as eligible contacts have been skipped at send time before
   it, so on its own time exactly when none has.
   */
  lemma LateSkipsPullTheNextChunk(
    full: seq<Candidate>, size: nat, rate: real, stable: set<nat>, steps: seq<Step>, step: Step, i: nat)
    requires Ascending(full) && size > 0 && rate > 0.0
    requires Legal(stable, DRAFT, steps) && FixedRun(full, size, rate, steps)
    requires Enabled(stable, Exec(stable, DRAFT, steps), step) && Fixed(full, size, rate, step)
    requires i < |full| && SendKey(full[i].contact) !in Exec(stable, DRAFT, steps).queue
    requires SendKey(full[i].contact) in Next(stable, Exec(stable, DRAFT, steps), step).queue
    ensures var s := Exec(stable, DRAFT, steps);
            var t := Next(stable, s, step);
            var at := t.queue[SendKey(full[i].contact)].runAt;
            && Names(full, s.rows) && t.startedAt.Some?
            && at == Slot(Rank(full, i) - Late(full, s.rows), t.startedAt.value, rate)
            && (at == DueAt(full, i, t.startedAt.value, rate) <==> Late(full, s.rows) == 0)
  {
    hide Legal, Exec, Next, Enabled, Rank, Late, Fixed, FixedRun, IsBoundary, AtBoundary, ArmedEarly, BroadcastSafety.Inv;
    var s := Exec(stable, DRAFT, steps);
    DraftPaces(full, size, stable);
    PacedRun(full, size, rate, stable, DRAFT, steps);
    PacedStep(full, size, rate, stable, s, step);
    SlotOf(full, rate, s, Next(stable, s, step), i);
  }

  lemma SlotOf(full: seq<Candidate>, rate: real, s: State, t: State, i: nat)
    requires Ascending(full) && rate > 0.0 && |s.rows| <= |full| && ArmedEarly(full, rate, s, t) && i < |full|
    requires SendKey(full[i].contact) in t.queue && SendKey(full[i].contact) !in s.queue
    ensures t.startedAt.Some?
    ensures var at := t.queue[SendKey(full[i].contact)].runAt;
            && at == Slot(Rank(full, i) - Late(full, s.rows), t.startedAt.value, rate)
            && (at == DueAt(full, i, t.startedAt.value, rate) <==> Late(full, s.rows) == 0)
  {
    hide Rank, Late;
    var k := SendKey(full[i].contact);
    var h: nat :| InSlot(full, h, Late(full, s.rows), k.contact, t.startedAt.value, rate, t.queue[k].runAt);
    assert h == i;
    SameQuotient(Rank(full, i), Late(full, s.rows), rate);
  }

  lemma SameQuotient(a: int, d: int, rate: real)
    requires rate > 0.0
    ensures (a - d) as real / rate == a as real / rate <==> d == 0
  {
    if (a - d) as real / rate == a as real / rate {
      assert (a - d) as real / rate * rate == (a - d) as real;
      assert a as real / rate * rate == a as real;
    }
  }

  // ------------------------------------------------------------------ a run on which it happens

  /** Contacts 0, 1, 2, …, all of them eligible. */
  function Everyone(n: nat): (full: seq<Candidate>)
    ensures |full| == n && forall i | 0 <= i < n :: full[i] == Candidate(i, Verdict.Allowed)
  {
    seq(n, i requires 0 <= i < n => Candidate(i, Verdict.Allowed))
  }

  /** A contact who opted out between the fanout and the send. */
  const OPTED := SendEnv(true, false, true, Verdict.Allowed, true, NoMessage)

  /** A first full chunk, a first recipient who has opted out, and the second chunk. */
  function OptOut(size: nat, rate: real): seq<Step> {
    var full := Everyone(size + 1);
    [DoSchedule(0.0), DoFanout(START, full, size, 0.0, rate, true), DoSend(0, OPTED, true),
     DoFanout(size - 1, full, size, 0.0, rate, true)]
  }

  /** Running the chunk that starts where the rows stop. */
  lemma NextChunk(full: seq<Candidate>, size: nat, rate: real, stable: set<nat>, s: State, now: real)
    requires Ascending(full) && size > 0 && rate > 0.0 && Paced(full, size, s) && s.status.Live()
    requires IsBoundary(size, |s.rows|) && |s.rows| < |full|
    requires Enabled(stable, s, DoFanout(Before(full, |s.rows|), full, size, now, rate, true))
    ensures var e := End(full, |s.rows|, size);
            var t := Next(stable, s, DoFanout(Before(full, |s.rows|), full, size, now, rate, true));
            && |t.rows| == e && Follow(full, s.rows, t.rows)
            && t.startedAt == Started(s, now).startedAt
            && (e == |s.rows| + size ==>
                  && t.status.Sending? && FanoutKey(Before(full, e)) in t.queue
                  && (FanoutKey(Before(full, e)) !in s.queue
                      ==> t.queue[FanoutKey(Before(full, e))].status == ActionStatus.Pending))
  {
    var j := |s.rows|;
    hide Arm, InsertMissing, NotSkipped, PendingAmong, Late, Rank, InSlot, Beyond, Tally, AnyPending, FanoutOutstanding;
    WriteSliceFirst(full, size, Started(s, now), now, rate);
    RunFollows(full, size, s, j, now, rate, true);
    ChunkIsSlice(full, j, size);
  }

  lemma {:induction false} RankOfEveryone(n: nat, i: nat)
    requires i <= n
    ensures Rank(Everyone(n), i) == i
  {
    if i > 0 { RankOfEveryone(n, i - 1); }
  }

  lemma {:induction false} OnlyTheFirst(full: seq<Candidate>, rows: seq<Recipient>)
    requires 0 < |rows| <= |full| && full[0].verdict.Allowed? && rows[0].status.Skipped?
    requires forall i | 0 < i < |rows| :: !rows[i].status.Skipped?
    ensures Late(full, rows) == 1
  {
    if |rows| > 1 { OnlyTheFirst(full, rows[..|rows| - 1]); }
  }

  /** A state the first two or three steps of the run lead to. */
  ghost predicate Halfway(size: nat, rate: real, stable: set<nat>, s: State)
    requires size > 0 && rate > 0.0
  {
    var full := Everyone(size + 1);
    && Paced(full, size, s) && BroadcastSafety.Inv(stable, s)
    && s.status.Sending? && s.startedAt == Some(0.0) && |s.rows| == size
    && FanoutKey(size - 1) in s.queue && s.queue[FanoutKey(size - 1)].status.Owed()
    && SendKey(size - 1) in s.queue && s.queue[SendKey(size - 1)].runAt == Slot(size - 1, 0.0, rate)
  }

  /** The scheduled broadcast, and the first chunk about to run. */
  lemma Scheduled(size: nat, rate: real, stable: set<nat>)
    requires size > 0 && rate > 0.0 && forall c | c in stable :: c <= size
    ensures Enabled(stable, DRAFT, DoSchedule(0.0)) && Next(stable, DRAFT, DoSchedule(0.0)) == Schedule(DRAFT, 0.0)
    ensures Paced(Everyone(size + 1), size, Schedule(DRAFT, 0.0)) && BroadcastSafety.Inv(stable, Schedule(DRAFT, 0.0))
    ensures Enabled(stable, Schedule(DRAFT, 0.0), DoFanout(START, Everyone(size + 1), size, 0.0, rate, true))
  {
    Covers(size, stable);
    assert Paced(Everyone(size + 1), size, DRAFT);
    PacedStep(Everyone(size + 1), size, rate, stable, DRAFT, DoSchedule(0.0));
  }

  lemma FirstChunkRuns(size: nat, rate: real, stable: set<nat>)
    requires size > 0 && rate > 0.0 && forall c | c in stable :: c <= size
    ensures var full := Everyone(size + 1);
            var s := Schedule(DRAFT, 0.0);
            var step := DoFanout(START, full, size, 0.0, rate, true);
            && Enabled(stable, s, step)
            && Halfway(size, rate, stable, Next(stable, s, step))
            && forall i | 0 <= i < size :: Next(stable, s, step).rows[i] == NewRow(full[i])
  {
    hide Next, Enabled, BroadcastSafety.Inv, Rank, Late, ArmedEarly, AtBoundary, Slot;
    var full := Everyone(size + 1);
    var s := Schedule(DRAFT, 0.0);
    var step := DoFanout(START, full, size, 0.0, rate, true);
    Covers(size, stable);
    Scheduled(size, rate, stable);
    PacedStep(full, size, rate, stable, s, step);
    NextChunk(full, size, rate, stable, s, 0.0);
    var t := Next(stable, s, step);
    assert full[size - 1].contact == size - 1;
    assert SendKey(full[size - 1].contact) in t.queue;
    SlotOf(full, rate, s, t, size - 1);
    RankOfEveryone(size + 1, size - 1);
    DraftPaces(full, size, stable);
  }

  lemma Covers(size: nat, stable: set<nat>)
    requires forall c | c in stable :: c <= size
    ensures Ascending(Everyone(size + 1)) && forall c | c in stable :: Includes(Everyone(size + 1), c)
  {
    forall c | c in stable ensures Includes(Everyone(size + 1), c) {
      assert Everyone(size + 1)[c].contact == c;
    }
  }

  /** A refused send skips its row; with a chunk still owed nothing is settled. */
  lemma RefusedSend(s: State, row: nat, key: Key)
    requires row < |s.rows| && s.rows[row].status.Pending? && s.status.Sending?
    requires key in s.queue && key.FanoutKey? && s.queue[key].status.Owed()
    ensures Send(s, row, OPTED) == s.(rows := s.rows[row := Outcome(s.rows[row], RecipientStatus.Skipped, OPTED_OUT, None)])
  {
    assert FanoutOutstanding(s.queue, None);
  }

  /** The send row of the first contact names the first recipient. */
  lemma FirstTarget(size: nat, stable: set<nat>, s: State)
    requires size > 0 && Paced(Everyone(size + 1), size, s) && BroadcastSafety.Inv(stable, s) && |s.rows| > 0
    ensures SendKey(0) in s.queue && s.queue[SendKey(0)].target == 0
  {
    var full := Everyone(size + 1);
    assert SendKey(full[0].contact) in s.queue;
    var i := s.queue[SendKey(0)].target;
    assert s.rows[i].contact == Some(full[i].contact);
  }

  lemma FirstOptsOut(size: nat, rate: real, stable: set<nat>, s: State)
    requires size > 0 && rate > 0.0 && Halfway(size, rate, stable, s)
    requires forall i | 0 <= i < size :: s.rows[i] == NewRow(Everyone(size + 1)[i])
    ensures Enabled(stable, s, DoSend(0, OPTED, true))
    ensures Halfway(size, rate, stable, Next(stable, s, DoSend(0, OPTED, true)))
    ensures Late(Everyone(size + 1), Next(stable, s, DoSend(0, OPTED, true)).rows) == 1
  {
    hide Send, Late, Paced, BroadcastSafety.Inv, Settle, SendVerdict, IsBoundary;
    var full := Everyone(size + 1);
    Covers(size, {});
    FirstTarget(size, stable, s);
    RefusedSend(s, 0, FanoutKey(size - 1));
    PacedStep(full, size, rate, stable, s, DoSend(0, OPTED, true));
    OnlyTheFirst(full, Next(stable, s, DoSend(0, OPTED, true)).rows);
  }

  /** Nobody past the rows has a send row yet. */
  lemma NotArmedYet(full: seq<Candidate>, size: nat, stable: set<nat>, s: State, i: nat)
    requires Ascending(full) && size > 0 && Paced(full, size, s) && BroadcastSafety.Inv(stable, s) && |s.rows| <= i < |full|
    ensures SendKey(full[i].contact) !in s.queue
  {
    assert forall h | 0 <= h < |s.rows| :: full[h].contact < full[i].contact;
    assert forall h | 0 <= h < |s.rows| :: s.rows[h].contact != Some(full[i].contact);
  }

  lemma SecondMayRun(size: nat, rate: real, stable: set<nat>, s: State)
    requires size > 0 && rate > 0.0 && (forall c | c in stable :: c <= size) && FanoutKey(size - 1) in s.queue
    ensures Enabled(stable, s, DoFanout(size - 1, Everyone(size + 1), size, 0.0, rate, true))
  {
    hide Includes, Everyone;
    Covers(size, stable);
  }

  lemma SecondChunkRuns(size: nat, rate: real, stable: set<nat>, s: State)
    requires size > 0 && rate > 0.0 && (forall c | c in stable :: c <= size) && Halfway(size, rate, stable, s)
    requires Late(Everyone(size + 1), s.rows) == 1
    ensures var step := DoFanout(size - 1, Everyone(size + 1), size, 0.0, rate, true);
            && Enabled(stable, s, step)
            && OneLate(size, Next(stable, s, step)) && BothAt(size, Slot(size - 1, 0.0, rate), Next(stable, s, step))
  {
    hide Next, Enabled, BroadcastSafety.Inv, Rank, Late, ArmedEarly, AtBoundary, Slot;
    var full := Everyone(size + 1);
    var step := DoFanout(size - 1, full, size, 0.0, rate, true);
    Covers(size, stable);
    assert Before(full, |s.rows|) == size - 1;
    SecondMayRun(size, rate, stable, s);
    PacedStep(full, size, rate, stable, s, step);
    NextChunk(full, size, rate, stable, s, 0.0);
    var t := Next(stable, s, step);
    LateKept(full, s.rows, t.rows);
    NotArmedYet(full, size, stable, s, size);
    assert full[size].contact == size && full[size - 1].contact == size - 1;
    assert SendKey(full[size].contact) in t.queue && SendKey(full[size - 1].contact) in t.queue;
    SlotOf(full, rate, s, t, size);
    RankOfEveryone(size + 1, size);
    BroadcastWindow.OldRowsKeepTheirTime(stable, s, step, SendKey(size - 1));
  }

  /** Everybody has a row, and one eligible contact's is skipped. */
  predicate OneLate(size: nat, s: State) {
    |s.rows| == size + 1 && Late(Everyone(size + 1), s.rows) == 1
  }

  /** The last contact of the first chunk and the first of the second are due at one moment. */
  predicate BothAt(size: nat, at: real, s: State)
    requires size > 0
  {
    && SendKey(size - 1) in s.queue && s.queue[SendKey(size - 1)].runAt == at
    && SendKey(size) in s.queue && s.queue[SendKey(size)].runAt == at
  }

  /**
   Such a run exists for chunks of any size at any rate: one recipient of the first chunk
   opts out before the second is written, and the second chunk's first send is armed for the
   very moment of the first chunk's last one, where one of the two alone belongs.
   */
  lemma OneOptOutPullsTheNextChunk(size: nat, rate: real, stable: set<nat>)
    requires size > 0 && rate > 0.0 && forall c | c in stable :: c <= size
    ensures var full := Everyone(size + 1);
            && Legal(stable, DRAFT, OptOut(size, rate)) && FixedRun(full, size, rate, OptOut(size, rate))
            && var s := Exec(stable, DRAFT, OptOut(size, rate));
               && BothAt(size, DueAt(full, size - 1, 0.0, rate), s)
               && !BothAt(size, DueAt(full, size, 0.0, rate), s)
               && OneLate(size, s)
  {
    hide Legal, Exec, Next, Enabled, Late, Schedule, Halfway, Everyone, Rank, OneLate, NewRow;
    var full := Everyone(size + 1);
    var fanout, send, last :=
      DoFanout(START, full, size, 0.0, rate, true), DoSend(0, OPTED, true), DoFanout(size - 1, full, size, 0.0, rate, true);
    Scheduled(size, rate, stable);
    FirstChunkRuns(size, rate, stable);
    var s2 := Next(stable, Schedule(DRAFT, 0.0), fanout);
    FirstOptsOut(size, rate, stable, s2);
    var s3 := Next(stable, s2, send);
    SecondChunkRuns(size, rate, stable, s3);
    FourSteps(stable, DRAFT, DoSchedule(0.0), fanout, send, last);
    RankOfEveryone(size + 1, size - 1);
    RankOfEveryone(size + 1, size);
    SameQuotient(size, 1, rate);
  }

  lemma FourSteps(stable: set<nat>, s: State, a: Step, b: Step, c: Step, d: Step)
    requires Enabled(stable, s, a)
    requires Enabled(stable, Next(stable, s, a), b)
    requires Enabled(stable, Next(stable, Next(stable, s, a), b), c)
    requires Enabled(stable, Next(stable, Next(stable, Next(stable, s, a), b), c), d)
    ensures Legal(stable, s, [a, b, c, d])
    ensures Exec(stable, s, [a, b, c, d])
            == Next(stable, Next(stable, Next(stable, Next(stable, s, a), b), c), d)
  {
    hide *;
    var s1 := Next(stable, s, a);
    var s2 := Next(stable, s1, b);
    Alone(stable, Next(stable, s2, c), d);
    First(stable, s2, c, [d]);
    First(stable, s1, b, [c] + [d]);
    First(stable, s, a, [b] + ([c] + [d]));
    assert [a] + ([b] + ([c] + [d])) == [a, b, c, d];
  }

  lemma First(stable: set<nat>, s: State, step: Step, rest: seq<Step>)
    requires Enabled(stable, s, step) && Legal(stable, Next(stable, s, step), rest)
    ensures Legal(stable, s, [step] + rest)
    ensures Exec(stable, s, [step] + rest) == Exec(stable, Next(stable, s, step), rest)
  {
    hide Next, Enabled;
    assert ([step] + rest)[1..] == rest;
  }

  lemma Alone(stable: set<nat>, s: State, step: Step)
    requires Enabled(stable, s, step)
    ensures Legal(stable, s, [step]) && Exec(stable, s, [step]) == Next(stable, s, step)
  {
    hide Next, Enabled;
    assert [step][1..] == [];
  }
}
