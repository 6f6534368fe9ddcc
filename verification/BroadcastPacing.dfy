/**
 Pacing: over a fixed audience, the k-th eligible contact is armed k/rate after the
 start, wherever the chunk boundaries fall and whichever chunks run again, and one place
 earlier for each eligible contact that has been skipped since its row was written.
 */
module BroadcastPacing {
  import opened Queue
  import opened Broadcast
  import opened BroadcastFacts
  import BroadcastSafety

  /** How many of the first `i` candidates are eligible. */
  function Rank(full: seq<Candidate>, i: nat): nat
    requires i <= |full|
  {
    if i == 0 then 0 else Rank(full, i - 1) + if full[i - 1].verdict.Allowed? then 1 else 0
  }

  /** The cursor of the chunk that starts at index `j`. */
  function Before(full: seq<Candidate>, j: nat): int
    requires j <= |full|
  {
    if j == 0 then START else full[j - 1].contact
  }

  /** When the candidate at index `i` is due. */
  function DueAt(full: seq<Candidate>, i: nat, anchor: real, rate: real): real
    requires i <= |full| && rate > 0.0
  {
    anchor + Rank(full, i) as real / rate
  }

  function End(full: seq<Candidate>, j: nat, size: nat): nat {
    if j + size <= |full| then j + size else |full|
  }

  /** The `n`th place in the send order, counted from the start. */
  function Slot(n: int, anchor: real, rate: real): real
    requires rate > 0.0
  {
    anchor + n as real / rate
  }

  /** Rows for a prefix of the audience, in order, whatever has become of the eligible ones. */
  ghost predicate Names(full: seq<Candidate>, rows: seq<Recipient>) {
    && |rows| <= |full|
    && forall i | 0 <= i < |rows| ::
         rows[i].contact == Some(full[i].contact) && (full[i].verdict.Denied? ==> rows[i].status.Skipped?)
  }

  /** The eligible candidates whose row is skipped all the same. */
  function Late(full: seq<Candidate>, rows: seq<Recipient>): nat
    requires |rows| <= |full|
  {
    if rows == [] then 0
    else
      var n := |rows| - 1;
      Late(full, rows[..n]) + if full[n].verdict.Allowed? && rows[n].status.Skipped? then 1 else 0
  }

  /** Rows that mirror a prefix of the audience: a row is skipped only because fanout skipped it. */
  ghost predicate Mirrors(full: seq<Candidate>, rows: seq<Recipient>) {
    Names(full, rows) && Late(full, rows) == 0
  }

  /** A multiple of the chunk size. */
  predicate IsBoundary(size: nat, j: nat)
    requires size > 0
  {
    j == 0 || (j >= size && IsBoundary(size, j - size))
  }

  /** The cursor of an armed chunk is a chunk boundary inside the expanded prefix. */
  ghost predicate AtBoundary(full: seq<Candidate>, size: nat, expanded: nat, cursor: int)
    requires size > 0
  {
    exists j: nat :: IsBoundary(size, j) && j <= expanded && j <= |full| && cursor == Before(full, j)
  }

  ghost predicate Paced(full: seq<Candidate>, size: nat, s: State)
    requires size > 0
  {
    && Names(full, s.rows)
    && (IsBoundary(size, |s.rows|) || |s.rows| == |full|)
    && (forall k | k in s.queue && k.FanoutKey? :: AtBoundary(full, size, |s.rows|, k.cursor))
    && (forall i | 0 <= i < |s.rows| && full[i].verdict.Allowed? :: SendKey(full[i].contact) in s.queue)
    && (s.status.Sending? ==> s.startedAt.Some?)
  }

  /** One audience, one chunk size, one rate, no erasure. */
  ghost predicate Fixed(full: seq<Candidate>, size: nat, rate: real, step: Step) {
    match step
    case DoFanout(_, audience, n, _, r, _) => audience == full && n == size && r == rate
    case DoErase(_) => false
    case _ => true
  }

  /** The same, and nobody is skipped at send time. */
  ghost predicate Steady(full: seq<Candidate>, size: nat, rate: real, step: Step) {
    Fixed(full, size, rate, step) && (step.DoSend? ==> SendVerdict(step.env).None?)
  }

  /** The row stands `early` places before its candidate's own. */
  ghost predicate InSlot(full: seq<Candidate>, i: nat, early: int, contact: nat, anchor: real, rate: real, runAt: real)
    requires rate > 0.0
  {
    && i < |full| && full[i].contact == contact && full[i].verdict.Allowed?
    && runAt == Slot(Rank(full, i) - early, anchor, rate)
  }

  /** Every send row the step adds stands as many places early as eligible contacts had been skipped. */
  ghost predicate ArmedEarly(full: seq<Candidate>, rate: real, s: State, t: State)
    requires rate > 0.0 && |s.rows| <= |full|
  {
    forall k | k in t.queue && k !in s.queue && k.SendKey? ::
      && t.startedAt.Some?
      && exists i: nat :: InSlot(full, i, Late(full, s.rows), k.contact, t.startedAt.value, rate, t.queue[k].runAt)
  }

  /** Every send row the step adds is due at its candidate's own time, counted from the start. */
  ghost predicate ArmedOnTime(full: seq<Candidate>, rate: real, s: State, t: State)
    requires rate > 0.0
  {
    forall k | k in t.queue && k !in s.queue && k.SendKey? ::
      t.startedAt.Some? && exists i: nat :: OnTime(full, i, k.contact, t.startedAt.value, rate, t.queue[k].runAt)
  }

  ghost predicate OnTime(full: seq<Candidate>, i: nat, contact: nat, anchor: real, rate: real, runAt: real)
    requires rate > 0.0
  {
    i < |full| && full[i].contact == contact && full[i].verdict.Allowed? && runAt == DueAt(full, i, anchor, rate)
  }

  // ------------------------------------------------------------------ chunks are slices

  lemma {:induction false} BeyondIsSuffix(full: seq<Candidate>, j: nat, cursor: int)
    requires Ascending(full) && j <= |full|
    requires forall i | 0 <= i < j :: full[i].contact <= cursor
    requires j < |full| ==> full[j].contact > cursor
    ensures Beyond(full, cursor) == full[j..]
  {
    if j > 0 {
      BeyondIsSuffix(full[1..], j - 1, cursor);
      assert full[1..][j - 1..] == full[j..];
    }
  }

  lemma ChunkIsSlice(full: seq<Candidate>, j: nat, size: nat)
    requires Ascending(full) && j <= |full|
    ensures Chunk(full, Before(full, j), size) == full[j..End(full, j, size)]
  {
    BeyondIsSuffix(full, j, Before(full, j));
  }

  // ------------------------------------------------------------------ inserting a slice

  lemma {:induction false} InsertNothing(rows: seq<Recipient>, chunk: seq<Candidate>)
    requires forall c | c in chunk :: HasRow(rows, c.contact)
    ensures InsertMissing(rows, chunk) == rows
  {
    if chunk != [] {
      assert HasRow(rows, chunk[0].contact);
      InsertNothing(rows, chunk[1..]);
    }
  }

  /** Expanding the audience from where the rows stop appends one row per candidate, in order. */
  lemma {:induction false} InsertSlice(full: seq<Candidate>, rows: seq<Recipient>, e: nat)
    requires Ascending(full) && Names(full, rows) && |rows| <= e <= |full|
    ensures var r := InsertMissing(rows, full[|rows|..e]);
            && |r| == e && rows <= r && Names(full, r)
            && forall i | |rows| <= i < e :: r[i] == NewRow(full[i])
    decreases e - |rows|
  {
    var j := |rows|;
    if j < e {
      var more := rows + [NewRow(full[j])];
      assert !HasRow(rows, full[j].contact);
      assert full[j..e][0] == full[j] && full[j..e][1..] == full[j + 1..e];
      InsertSlice(full, more, e);
    }
  }

  // ------------------------------------------------------------------ the offset

  lemma {:induction false} NotSkippedAndLate(full: seq<Candidate>, rows: seq<Recipient>)
    requires Names(full, rows)
    ensures NotSkipped(rows) + Late(full, rows) == Rank(full, |rows|)
  {
    if rows != [] { NotSkippedAndLate(full, rows[..|rows| - 1]); }
  }

  lemma NotSkippedIsRank(full: seq<Candidate>, rows: seq<Recipient>)
    requires Mirrors(full, rows)
    ensures |rows| <= |full| && NotSkipped(rows) == Rank(full, |rows|)
  {
    hide Late, NotSkipped, Rank;
    NotSkippedAndLate(full, rows);
  }

  /** New rows are never late. */
  lemma {:induction false} LateKept(full: seq<Candidate>, rows: seq<Recipient>, r: seq<Recipient>)
    requires rows <= r && |r| <= |full|
    requires forall i | |rows| <= i < |r| :: r[i] == NewRow(full[i])
    ensures Late(full, r) == Late(full, rows)
  {
    if r != rows {
      LateKept(full, rows, r[..|r| - 1]);
    }
  }

  /** No more rows skipped, none late. */
  lemma {:induction false} NobodyLate(full: seq<Candidate>, rows: seq<Recipient>, more: seq<Recipient>)
    requires |rows| == |more| <= |full| && Late(full, rows) == 0
    requires forall i | 0 <= i < |rows| && more[i].status.Skipped? :: rows[i].status.Skipped?
    ensures Late(full, more) == 0
  {
    if rows != [] { NobodyLate(full, rows[..|rows| - 1], more[..|more| - 1]); }
  }

  lemma {:induction false} PendingIsEligible(full: seq<Candidate>, rows: seq<Recipient>, j: nat, e: nat)
    requires j <= e <= |full|
    requires forall i | j <= i < e && full[i].verdict.Allowed? :: PendingFor(rows, full[i].contact)
    ensures PendingAmong(rows, full[j..e]) == Rank(full, e) - Rank(full, j)
    decreases e - j
  {
    if j < e {
      assert full[j..e][0] == full[j] && full[j..e][1..] == full[j + 1..e];
      PendingIsEligible(full, rows, j + 1, e);
    }
  }

  // ------------------------------------------------------------------ arming

  lemma {:induction false} ArmNothing(queue: Table, rows: seq<Recipient>, chunk: seq<Candidate>, n: int, anchor: real, rate: real)
    requires rate > 0.0
    requires forall c | c in chunk && c.verdict.Allowed? :: SendKey(c.contact) in queue
    ensures Arm(queue, rows, chunk, n, anchor, rate) == queue
    decreases |chunk|
  {
    if chunk != [] {
      var c := chunk[0];
      if c.verdict.Allowed? {
        assert SendKey(c.contact) in queue;
        ArmNothing(queue, rows, chunk[1..], n + 1, anchor, rate);
      } else {
        ArmNothing(queue, rows, chunk[1..], n, anchor, rate);
      }
    }
  }

  lemma {:induction false} ArmSlice(
    full: seq<Candidate>, queue: Table, rows: seq<Recipient>, j: nat, e: nat, early: int, anchor: real, rate: real)
    requires rate > 0.0 && j <= e <= |full|
    requires forall i | j <= i < e && full[i].verdict.Allowed? :: PendingFor(rows, full[i].contact)
    ensures var r := Arm(queue, rows, full[j..e], Rank(full, j) - early, anchor, rate);
            && (forall k | k in queue :: k in r && r[k] == queue[k])
            && (forall i | j <= i < e && full[i].verdict.Allowed? :: SendKey(full[i].contact) in r)
            && (forall k | k in r && k !in queue ::
                  k.SendKey? && exists i: nat :: InSlot(full, i, early, k.contact, anchor, rate, r[k].runAt))
    decreases e - j
  {
    if j < e {
      assert full[j..e][0] == full[j] && full[j..e][1..] == full[j + 1..e];
      var key := SendKey(full[j].contact);
      if full[j].verdict.Allowed? {
        var due := Slot(Rank(full, j) - early, anchor, rate);
        var armed := Enqueue(queue, key, due, RowOf(rows, full[j].contact));
        ArmSlice(full, armed, rows, j + 1, e, early, anchor, rate);
        assert InSlot(full, j, early, key.contact, anchor, rate, due);
      } else {
        ArmSlice(full, queue, rows, j + 1, e, early, anchor, rate);
      }
    }
  }

  // ------------------------------------------------------------------ one chunk

  lemma {:induction false} SameBoundary(size: nat, j: nat, m: nat)
    requires size > 0 && IsBoundary(size, j) && IsBoundary(size, m) && j <= m < j + size
    ensures m == j
  {
    if j > 0 { SameBoundary(size, j - size, m - size); }
  }

  /** The old rows and, after them, the next of the audience's own. */
  ghost predicate Follow(full: seq<Candidate>, rows: seq<Recipient>, more: seq<Recipient>) {
    rows <= more && Names(full, more) && forall i | |rows| <= i < |more| :: more[i] == NewRow(full[i])
  }

  lemma WriteSliceAgain(full: seq<Candidate>, size: nat, s: State, j: nat, now: real, rate: real)
    requires Ascending(full) && size > 0 && rate > 0.0 && Paced(full, size, s)
    requires j <= |full| && End(full, j, size) <= |s.rows|
    ensures WriteChunk(s, full[j..End(full, j, size)], now, rate) == s
  {
    var chunk := full[j..End(full, j, size)];
    forall c | c in chunk ensures HasRow(s.rows, c.contact) && (c.verdict.Allowed? ==> SendKey(c.contact) in s.queue) {
      var i :| 0 <= i < |chunk| && chunk[i] == c;
      assert s.rows[j + i].contact == Some(full[j + i].contact);
    }
    InsertNothing(s.rows, chunk);
    ArmNothing(s.queue, s.rows, chunk, NotSkipped(s.rows) - PendingAmong(s.rows, chunk),
               if s.startedAt.Some? then s.startedAt.value else now, rate);
  }

  lemma WriteSliceFirst(full: seq<Candidate>, size: nat, s: State, now: real, rate: real)
    requires Ascending(full) && size > 0 && rate > 0.0 && Paced(full, size, s) && s.startedAt.Some?
    ensures var e := End(full, |s.rows|, size);
            var t := WriteChunk(s, full[|s.rows|..e], now, rate);
            && Follow(full, s.rows, t.rows) && |t.rows| == e
            && (forall k | k in s.queue :: k in t.queue && t.queue[k] == s.queue[k])
            && (forall k | k in t.queue && k !in s.queue :: k.SendKey?)
            && (forall i | 0 <= i < e && full[i].verdict.Allowed? :: SendKey(full[i].contact) in t.queue)
            && ArmedEarly(full, rate, s, t)
  {
    hide Arm, InsertMissing, Rank, NotSkipped, PendingAmong, Late;
    var j, e := |s.rows|, End(full, |s.rows|, size);
    var rows := InsertMissing(s.rows, full[j..e]);
    InsertSlice(full, s.rows, e);
    LateKept(full, s.rows, rows);
    NotSkippedAndLate(full, rows);
    forall i | j <= i < e && full[i].verdict.Allowed? ensures PendingFor(rows, full[i].contact) {
      assert rows[i] == NewRow(full[i]);
    }
    PendingIsEligible(full, rows, j, e);
    ArmSlice(full, s.queue, rows, j, e, Late(full, s.rows), s.startedAt.value, rate);
  }

  /** A chunk's writing step: nothing on a re-run, the next slice on a first run. */
  lemma WriteSlice(full: seq<Candidate>, size: nat, s: State, j: nat, now: real, rate: real)
    requires Ascending(full) && size > 0 && rate > 0.0 && Paced(full, size, s) && s.startedAt.Some?
    requires IsBoundary(size, j) && j <= |s.rows|
    ensures var e := End(full, j, size);
            var t := if full[j..e] == [] then s else WriteChunk(s, full[j..e], now, rate);
            && e <= |t.rows| && (|t.rows| == |s.rows| || |t.rows| == e) && Follow(full, s.rows, t.rows)
            && (forall k | k in s.queue :: k in t.queue && t.queue[k] == s.queue[k])
            && (forall k | k in t.queue && k !in s.queue :: k.SendKey?)
            && (forall i | 0 <= i < |t.rows| && full[i].verdict.Allowed? :: SendKey(full[i].contact) in t.queue)
            && ArmedEarly(full, rate, s, t)
  {
    var e := End(full, j, size);
    if e <= |s.rows| {
      WriteSliceAgain(full, size, s, j, now, rate);
    } else {
      SameBoundary(size, j, |s.rows|);
      WriteSliceFirst(full, size, s, now, rate);
    }
  }

  /** The state a chunk run starts writing from. */
  function Started(s: State, now: real): State {
    if s.status.Scheduled?
    then s.(status := BroadcastStatus.Sending, startedAt := if s.startedAt.Some? then s.startedAt else Some(now))
    else s
  }

  /** The writing step of the chunk that starts at index `j`. */
  function Written(full: seq<Candidate>, size: nat, s: State, j: nat, now: real, rate: real): State
    requires rate > 0.0 && j <= |full|
  {
    var e := End(full, j, size);
    if full[j..e] == [] then Started(s, now) else WriteChunk(Started(s, now), full[j..e], now, rate)
  }

  /** After the writing step only fanout keys are added, and no due time moves. */
  ghost predicate Follows(full: seq<Candidate>, size: nat, w: State, t: State, j: nat)
    requires j <= |full|
  {
    && t.rows == w.rows && t.startedAt == w.startedAt
    && (forall k | k in w.queue :: k in t.queue && t.queue[k].runAt == w.queue[k].runAt)
    && (forall k | k in t.queue && k !in w.queue :: k == FanoutKey(Before(full, End(full, j, size))) && End(full, j, size) == j + size)
  }

  lemma FanoutFollows(full: seq<Candidate>, size: nat, s: State, j: nat, now: real, rate: real)
    requires Ascending(full) && size > 0 && rate > 0.0 && j <= |full| && s.status.Live()
    ensures Follows(full, size, Written(full, size, s, j, now, rate), Fanout(s, Before(full, j), full, size, now, rate), j)
  {
    ChunkIsSlice(full, j, size);
  }

  lemma RunFollows(full: seq<Candidate>, size: nat, s: State, j: nat, now: real, rate: real, marked: bool)
    requires Ascending(full) && size > 0 && rate > 0.0 && j <= |full| && s.status.Live()
    requires FanoutKey(Before(full, j)) in s.queue
    ensures Follows(full, size, Written(full, size, s, j, now, rate),
                    RunFanout(s, Before(full, j), full, size, now, rate, marked), j)
  {
    FanoutFollows(full, size, s, j, now, rate);
  }

  /** From the writing step's facts to the invariant, over any state that looks like its outcome. */
  lemma ExpansionPaces(full: seq<Candidate>, size: nat, rate: real, s: State, w: State, t: State, e: nat, j: nat)
    requires size > 0 && rate > 0.0 && Paced(full, size, s) && j <= e <= |full| && IsBoundary(size, j)
    requires e == |full| || e == j + size
    requires e <= |w.rows| && (|w.rows| == |s.rows| || |w.rows| == e) && |s.rows| <= |w.rows| && Names(full, w.rows)
    requires forall k | k in s.queue :: k in w.queue && w.queue[k] == s.queue[k]
    requires forall k | k in w.queue && k !in s.queue :: k.SendKey?
    requires forall i | 0 <= i < |w.rows| && full[i].verdict.Allowed? :: SendKey(full[i].contact) in w.queue
    requires ArmedEarly(full, rate, s, w) && w.startedAt.Some?
    requires t.rows == w.rows && t.startedAt == w.startedAt
    requires forall k | k in w.queue :: k in t.queue && t.queue[k].runAt == w.queue[k].runAt
    requires forall k | k in t.queue && k !in w.queue :: k == FanoutKey(Before(full, e)) && e == j + size
    ensures Paced(full, size, t) && ArmedEarly(full, rate, s, t)
  {
    hide Late, Rank, InSlot;
    BoundariesCarry(full, size, s, t, e);
    assert IsBoundary(size, |t.rows|) || |t.rows| == |full|;
  }

  lemma FanoutPaces(full: seq<Candidate>, size: nat, rate: real, stable: set<nat>, s: State, step: Step)
    requires Ascending(full) && size > 0 && rate > 0.0 && Paced(full, size, s)
    requires step.DoFanout? && Enabled(stable, s, step) && Fixed(full, size, rate, step)
    ensures Paced(full, size, Next(stable, s, step)) && ArmedEarly(full, rate, s, Next(stable, s, step))
  {
    var DoFanout(cursor, _, _, now, _, marked) := step;
    if s.status.Live() {
      assert AtBoundary(full, size, |s.rows|, cursor);
      var j: nat :| IsBoundary(size, j) && j <= |s.rows| && j <= |full| && cursor == Before(full, j);
      RunFollows(full, size, s, j, now, rate, marked);
      LiveFanoutPaces(full, size, rate, s, Next(stable, s, step), j, now);
    }
  }

  lemma LiveFanoutPaces(full: seq<Candidate>, size: nat, rate: real, s: State, t: State, j: nat, now: real)
    requires Ascending(full) && size > 0 && rate > 0.0 && Paced(full, size, s) && s.status.Live()
    requires IsBoundary(size, j) && j <= |s.rows| && Follows(full, size, Written(full, size, s, j, now, rate), t, j)
    ensures Paced(full, size, t) && ArmedEarly(full, rate, s, t)
  {
    hide Arm, InsertMissing, NotSkipped, PendingAmong, Late, Rank, InSlot, IsBoundary, AtBoundary, Before;
    WriteSlice(full, size, Started(s, now), j, now, rate);
    ExpansionPaces(full, size, rate, Started(s, now), Written(full, size, s, j, now, rate), t, End(full, j, size), j);
  }

  /** Boundaries inside the old prefix are boundaries inside a longer one, and so is the next one. */
  lemma BoundariesCarry(full: seq<Candidate>, size: nat, s: State, t: State, e: nat)
    requires size > 0 && Paced(full, size, s) && |s.rows| <= |t.rows| && e <= |t.rows| && e <= |full|
    ensures forall k | k in s.queue && k.FanoutKey? :: AtBoundary(full, size, |t.rows|, k.cursor)
    ensures IsBoundary(size, e) ==> AtBoundary(full, size, |t.rows|, Before(full, e))
  {
    forall k | k in s.queue && k.FanoutKey? ensures AtBoundary(full, size, |t.rows|, k.cursor) {
      var j: nat :| IsBoundary(size, j) && j <= |s.rows| && j <= |full| && k.cursor == Before(full, j);
      assert j <= |t.rows|;
    }
  }

  // ------------------------------------------------------------------ the theorem

  /** The rows keep their contacts and their skips, and no send is armed. */
  ghost predicate Quiet(s: State, t: State) {
    && |t.rows| == |s.rows| && t.startedAt == s.startedAt && (t.status.Sending? ==> s.status.Sending?)
    && (forall i | 0 <= i < |s.rows| ::
          t.rows[i].contact == s.rows[i].contact && (s.rows[i].status.Skipped? ==> t.rows[i].status.Skipped?))
    && forall k: Key | !k.RetryKey? :: k in t.queue <==> k in s.queue
  }

  lemma QuietStepPaces(full: seq<Candidate>, size: nat, rate: real, s: State, t: State)
    requires size > 0 && rate > 0.0 && Paced(full, size, s) && Quiet(s, t)
    ensures Paced(full, size, t) && ArmedEarly(full, rate, s, t)
  {
  }

  lemma SendIsQuiet(s: State, row: nat, env: SendEnv)
    ensures Quiet(s, Send(s, row, env))
  {
    hide SendVerdict, AnyPending, FanoutOutstanding, Tally;
  }

  lemma SendPaces(full: seq<Candidate>, size: nat, rate: real, stable: set<nat>, s: State, step: Step)
    requires size > 0 && rate > 0.0 && Paced(full, size, s)
    requires step.DoSend? && Enabled(stable, s, step) && Fixed(full, size, rate, step)
    ensures Paced(full, size, Next(stable, s, step)) && ArmedEarly(full, rate, s, Next(stable, s, step))
  {
    hide Paced, ArmedEarly, Send;
    SendIsQuiet(s, s.queue[SendKey(step.contact)].target, step.env);
    QuietStepPaces(full, size, rate, s, Next(stable, s, step));
  }

  lemma OtherStepsPace(full: seq<Candidate>, size: nat, rate: real, stable: set<nat>, s: State, step: Step)
    requires size > 0 && rate > 0.0 && Paced(full, size, s)
    requires !step.DoFanout? && Enabled(stable, s, step) && Fixed(full, size, rate, step)
    requires s.status.Draft? ==> s == DRAFT.(stats := s.stats)
    ensures Paced(full, size, Next(stable, s, step)) && ArmedEarly(full, rate, s, Next(stable, s, step))
  {
    if step.DoSchedule? {
      assert Before(full, 0) == START && IsBoundary(size, 0);
    } else if step.DoSend? {
      SendPaces(full, size, rate, stable, s, step);
    } else {
      hide Paced, ArmedEarly, Send, RunSend;
      QuietStepPaces(full, size, rate, s, Next(stable, s, step));
    }
  }

  ghost predicate FixedRun(full: seq<Candidate>, size: nat, rate: real, steps: seq<Step>) {
    forall i | 0 <= i < |steps| :: Fixed(full, size, rate, steps[i])
  }

  ghost predicate SteadyRun(full: seq<Candidate>, size: nat, rate: real, steps: seq<Step>) {
    forall i | 0 <= i < |steps| :: Steady(full, size, rate, steps[i])
  }

  lemma {:induction false} PacedRun(full: seq<Candidate>, size: nat, rate: real, stable: set<nat>, s: State, steps: seq<Step>)
    requires Ascending(full) && size > 0 && rate > 0.0 && Paced(full, size, s)
    requires BroadcastSafety.Inv(stable, s)
    requires Legal(stable, s, steps) && FixedRun(full, size, rate, steps)
    ensures Paced(full, size, Exec(stable, s, steps))
    ensures BroadcastSafety.Inv(stable, Exec(stable, s, steps))
    ensures s.startedAt.Some? ==> Exec(stable, s, steps).startedAt == s.startedAt
    decreases |steps|
  {
    if steps != [] {
      PacedStep(full, size, rate, stable, s, steps[0]);
      PacedRun(full, size, rate, stable, Next(stable, s, steps[0]), steps[1..]);
    }
  }

  /** A new draft has nothing to pace yet. */
  lemma DraftPaces(full: seq<Candidate>, size: nat, stable: set<nat>)
    requires size > 0
    ensures Paced(full, size, DRAFT) && BroadcastSafety.Inv(stable, DRAFT) && Late(full, DRAFT.rows) == 0
  {
  }

  lemma StartIsFixed(stable: set<nat>, s: State, step: Step)
    requires Enabled(stable, s, step) && s.startedAt.Some?
    ensures Next(stable, s, step).startedAt == s.startedAt
  {
  }

  lemma DraftIsFresh(stable: set<nat>, s: State)
    requires BroadcastSafety.Inv(stable, s)
    ensures s.status.Draft? ==> s == DRAFT.(stats := s.stats)
  {
  }

  lemma PacedStep(full: seq<Candidate>, size: nat, rate: real, stable: set<nat>, s: State, step: Step)
    requires Ascending(full) && size > 0 && rate > 0.0 && Paced(full, size, s) && BroadcastSafety.Inv(stable, s)
    requires Enabled(stable, s, step) && Fixed(full, size, rate, step)
    ensures Paced(full, size, Next(stable, s, step)) && ArmedEarly(full, rate, s, Next(stable, s, step))
    ensures BroadcastSafety.Inv(stable, Next(stable, s, step))
    ensures s.startedAt.Some? ==> Next(stable, s, step).startedAt == s.startedAt
  {
    DraftIsFresh(stable, s);
    if step.DoFanout? {
      FanoutPaces(full, size, rate, stable, s, step);
    } else {
      OtherStepsPace(full, size, rate, stable, s, step);
    }
    BroadcastSafety.StepKeeps(stable, s, step);
    if s.startedAt.Some? { StartIsFixed(stable, s, step); }
  }

  // ------------------------------------------------------------------ without send-time skips

  lemma SteadyFanoutMirrors(full: seq<Candidate>, size: nat, rate: real, stable: set<nat>, s: State, step: Step)
    requires Ascending(full) && size > 0 && rate > 0.0 && Paced(full, size, s) && Late(full, s.rows) == 0
    requires step.DoFanout? && Enabled(stable, s, step) && Fixed(full, size, rate, step)
    requires |Next(stable, s, step).rows| <= |full|
    ensures Late(full, Next(stable, s, step).rows) == 0
  {
    hide Late, Written, WriteChunk;
    var DoFanout(cursor, _, _, now, _, marked) := step;
    if s.status.Live() {
      hide RunFanout, Fanout;
      assert AtBoundary(full, size, |s.rows|, cursor);
      var j: nat :| IsBoundary(size, j) && j <= |s.rows| && j <= |full| && cursor == Before(full, j);
      RunFollows(full, size, s, j, now, rate, marked);
      WrittenFollows(full, size, s, j, now, rate);
      LateKept(full, s.rows, Next(stable, s, step).rows);
    }
  }

  lemma WrittenFollows(full: seq<Candidate>, size: nat, s: State, j: nat, now: real, rate: real)
    requires Ascending(full) && size > 0 && rate > 0.0 && Paced(full, size, s) && s.status.Live()
    requires IsBoundary(size, j) && j <= |s.rows| && j <= |full|
    ensures Follow(full, s.rows, Written(full, size, s, j, now, rate).rows)
  {
    WriteSlice(full, size, Started(s, now), j, now, rate);
  }

  /** No row is skipped by the step that was not before. */
  ghost predicate SkipsNobody(s: State, t: State) {
    |t.rows| == |s.rows| && forall i | 0 <= i < |s.rows| && t.rows[i].status.Skipped? :: s.rows[i].status.Skipped?
  }

  lemma SendSkipsNobody(s: State, row: nat, env: SendEnv)
    requires SendVerdict(env).None?
    ensures SkipsNobody(s, Send(s, row, env))
  {
    hide SendVerdict, AnyPending, FanoutOutstanding, Tally;
  }

  lemma OthersSkipNobody(stable: set<nat>, s: State, step: Step)
    requires Enabled(stable, s, step) && !step.DoFanout? && !step.DoErase?
    requires step.DoSend? ==> SendVerdict(step.env).None?
    ensures SkipsNobody(s, Next(stable, s, step))
  {
    hide Send, SendVerdict, AnyPending, FanoutOutstanding, Tally;
    if step.DoSend? {
      SendSkipsNobody(s, s.queue[SendKey(step.contact)].target, step.env);
    }
  }

  lemma SteadyStepMirrors(full: seq<Candidate>, size: nat, rate: real, stable: set<nat>, s: State, step: Step)
    requires Ascending(full) && size > 0 && rate > 0.0 && Paced(full, size, s) && Late(full, s.rows) == 0
    requires Enabled(stable, s, step) && Steady(full, size, rate, step)
    requires |Next(stable, s, step).rows| <= |full|
    ensures Late(full, Next(stable, s, step).rows) == 0
  {
    hide Late, Next, Enabled, IsBoundary, AtBoundary, SendVerdict;
    if step.DoFanout? {
      SteadyFanoutMirrors(full, size, rate, stable, s, step);
    } else {
      OthersSkipNobody(stable, s, step);
      NobodyLate(full, s.rows, Next(stable, s, step).rows);
    }
  }

  lemma {:induction false} MirroredRun(full: seq<Candidate>, size: nat, rate: real, stable: set<nat>, s: State, steps: seq<Step>)
    requires Ascending(full) && size > 0 && rate > 0.0 && Paced(full, size, s) && BroadcastSafety.Inv(stable, s)
    requires Late(full, s.rows) == 0
    requires Legal(stable, s, steps) && SteadyRun(full, size, rate, steps)
    ensures Paced(full, size, Exec(stable, s, steps)) && BroadcastSafety.Inv(stable, Exec(stable, s, steps))
    ensures Mirrors(full, Exec(stable, s, steps).rows)
    decreases |steps|
  {
    if steps != [] {
      PacedStep(full, size, rate, stable, s, steps[0]);
      SteadyStepMirrors(full, size, rate, stable, s, steps[0]);
      MirroredRun(full, size, rate, stable, Next(stable, s, steps[0]), steps[1..]);
    }
  }

  lemma NoneLateOnTime(full: seq<Candidate>, rate: real, s: State, t: State)
    requires rate > 0.0 && Mirrors(full, s.rows) && ArmedEarly(full, rate, s, t)
    ensures ArmedOnTime(full, rate, s, t)
  {
    hide Late, Rank;
    forall k | k in t.queue && k !in s.queue && k.SendKey?
      ensures t.startedAt.Some? && exists i: nat :: OnTime(full, i, k.contact, t.startedAt.value, rate, t.queue[k].runAt)
    {
      var i: nat :| InSlot(full, i, Late(full, s.rows), k.contact, t.startedAt.value, rate, t.queue[k].runAt);
      assert OnTime(full, i, k.contact, t.startedAt.value, rate, t.queue[k].runAt);
    }
  }

  /**
   After any run, with chunks of any one size and whatever has been sent or run again:
   a step arms a contact at start + rank / rate, the start never moves, and every
   expanded eligible contact holds its send row, so no later chunk can arm it again.
   */
  lemma PacingIsIndependentOfChunking(
    full: seq<Candidate>, size: nat, rate: real, stable: set<nat>, steps: seq<Step>, step: Step)
    requires Ascending(full) && size > 0 && rate > 0.0
    requires Legal(stable, DRAFT, steps) && SteadyRun(full, size, rate, steps)
    requires Enabled(stable, Exec(stable, DRAFT, steps), step) && Steady(full, size, rate, step)
    ensures var s := Exec(stable, DRAFT, steps);
            var t := Next(stable, s, step);
            && ArmedOnTime(full, rate, s, t)
            && (s.startedAt.Some? ==> t.startedAt == s.startedAt)
            && |t.rows| <= |full|
            && forall i | 0 <= i < |t.rows| && full[i].verdict.Allowed? :: SendKey(full[i].contact) in t.queue
  {
    hide Legal, Exec, Next, Enabled, ArmedOnTime, ArmedEarly, Late, IsBoundary, AtBoundary, BroadcastSafety.Inv, SteadyRun, Fixed;
    var s := Exec(stable, DRAFT, steps);
    DraftPaces(full, size, stable);
    MirroredRun(full, size, rate, stable, DRAFT, steps);
    PacedStep(full, size, rate, stable, s, step);
    NoneLateOnTime(full, rate, s, Next(stable, s, step));
  }
}
