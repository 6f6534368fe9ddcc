/**
 The enrollment sweep: keyset paging on (next_run_at, id) over the due enrollments,
 with a fixed clock and nobody else holding a row.
 */
module SequenceSweep {
  import opened Queue
  import opened Sequences
  import opened SequenceStore

  const BATCH_SIZE: nat := 50
  const MAX_BATCHES: nat := 40

  /** The cursor is read off the last row of a batch, which a retirement has emptied of its time. */
  datatype Cursor = Start | After(runAt: Option<real>, id: nat)

  predicate Due(e: Enrollment, clock: real) {
    e.status.Active? && e.nextRunAt.Some? && e.nextRunAt.value <= clock
  }

  /** (next_run_at, id) in lexicographic order. */
  predicate Earlier(t: real, i: nat, u: real, j: nat) {
    t < u || (t == u && i < j)
  }

  /** The due enrollments in the order of their index. */
  ghost predicate DueIndex(es: seq<Enrollment>, clock: real, table: seq<nat>) {
    && (forall i | 0 <= i < |table| :: table[i] < |es| && Due(es[table[i]], clock))
    && (forall id | 0 <= id < |es| && Due(es[id], clock) :: id in table)
    && (forall i, j | 0 <= i < j < |table| ::
          Earlier(es[table[i]].nextRunAt.value, table[i], es[table[j]].nextRunAt.value, table[j]))
  }

  /** The query's predicate on one row. */
  predicate Selected(e: Enrollment, id: nat, clock: real, cursor: Cursor)
    requires cursor.After? ==> cursor.runAt.Some?
  {
    Due(e, clock) && (cursor.Start? || Earlier(cursor.runAt.value, cursor.id, e.nextRunAt.value, id))
  }

  function Select(es: seq<Enrollment>, table: seq<nat>, clock: real, cursor: Cursor): seq<nat>
    requires forall i | 0 <= i < |table| :: table[i] < |es|
    requires cursor.After? ==> cursor.runAt.Some?
  {
    if table == [] then []
    else if Selected(es[table[0]], table[0], clock, cursor) then [table[0]] + Select(es, table[1..], clock, cursor)
    else Select(es, table[1..], clock, cursor)
  }

  lemma {:induction false} SelectIsSuffix(es: seq<Enrollment>, table: seq<nat>, clock: real, cursor: Cursor, k: nat)
    requires forall i | 0 <= i < |table| :: table[i] < |es|
    requires cursor.After? ==> cursor.runAt.Some?
    requires k <= |table|
    requires forall i | 0 <= i < k :: !Selected(es[table[i]], table[i], clock, cursor)
    requires forall i | k <= i < |table| :: Selected(es[table[i]], table[i], clock, cursor)
    ensures Select(es, table, clock, cursor) == table[k..]
  {
    if table != [] {
      if k > 0 {
        SelectIsSuffix(es, table[1..], clock, cursor, k - 1);
        assert table[1..][k - 1..] == table[k..];
      } else {
        SelectIsSuffix(es, table[1..], clock, cursor, 0);
      }
    }
  }

  /** What a handled enrollment looks like: retired if its contact is gone, queued under its key otherwise. */
  ghost predicate Handled(w: World, t: World, id: nat)
    requires id < |w.enrollments|
  {
    && |t.enrollments| == |w.enrollments|
    && if w.enrollments[id].contact in w.gone
       then t.enrollments[id] == Retired(w.enrollments[id])
       else t.enrollments[id] == w.enrollments[id] && StepKey(id, w.enrollments[id].currentStep) in t.queue
  }

  /** The first `k` enrollments of the index are handled and every other enrollment is as it was. */
  ghost predicate HandledUpTo(w: World, t: World, table: seq<nat>, k: nat)
    requires k <= |table| && forall i | 0 <= i < |table| :: table[i] < |w.enrollments|
  {
    && |t.enrollments| == |w.enrollments|
    && (forall i | 0 <= i < k :: Handled(w, t, table[i]))
    && (forall id | 0 <= id < |w.enrollments| && id !in table[..k] :: t.enrollments[id] == w.enrollments[id])
    && t.gone == w.gone && t.clock == w.clock && t.log == w.log && t.steps == w.steps
  }

  /** One batch's work on the rows it locked: the rows from `k` to `m` of the index, in order. */
  method SweepRows(store: Store, table: seq<nat>, k: nat, m: nat, ghost w: World)
    requires k <= m <= |table| && DueIndex(w.enrollments, w.clock, table)
    requires HandledUpTo(w, store.Now(), table, k)
    modifies store
    ensures HandledUpTo(w, store.Now(), table, m)
  {
    for i := k to m
      invariant HandledUpTo(w, store.Now(), table, i)
    {
      var id := table[i];
      assert id !in table[..i] by { EarlierOnesDiffer(w.enrollments, w.clock, table, i); }
      ghost var before := store.Now();
      var retired := store.RetireIfContactGone(id);
      if !retired { store.EnqueueCurrent(id); }
      OneMoreHandled(w, before, store.Now(), table, i);
    }
  }

  lemma EarlierOnesDiffer(es: seq<Enrollment>, clock: real, table: seq<nat>, i: nat)
    requires DueIndex(es, clock, table) && i < |table|
    ensures table[i] !in table[..i]
  {
    forall j | 0 <= j < i ensures table[j] != table[i] {
      assert Earlier(es[table[j]].nextRunAt.value, table[j], es[table[i]].nextRunAt.value, table[i]);
    }
  }

  lemma OneMoreHandled(w: World, before: World, after: World, table: seq<nat>, i: nat)
    requires i < |table| && DueIndex(w.enrollments, w.clock, table) && HandledUpTo(w, before, table, i)
    requires table[i] !in table[..i]
    requires after == if before.enrollments[table[i]].contact in before.gone then Retire(before, table[i])
                      else before.(queue := EnqueueStep(before.queue, table[i], before.enrollments[table[i]]))
    ensures HandledUpTo(w, after, table, i + 1)
  {
    var id := table[i];
    assert before.enrollments[id] == w.enrollments[id];
    forall j | 0 <= j < i + 1 ensures Handled(w, after, table[j]) {
      if j < i {
        assert Handled(w, before, table[j]);
        assert table[j] in table[..i];
        assert table[j] != id;
      }
    }
    assert table[..i + 1] == table[..i] + [id];
  }

  /** The last row of the b-th full batch belongs to a contact who is gone. */
  ghost predicate CursorLost(w: World, table: seq<nat>, b: nat)
    requires forall i | 0 <= i < |table| :: table[i] < |w.enrollments|
  {
    1 <= b < 40 && 50 * b <= |table| && w.enrollments[table[50 * b - 1]].contact in w.gone
  }

  /**
   `sweep_sequence_enrollments`.  It handles the due enrollments exactly once each, in
   order, until none is left or 40 batches are done; unless a full batch, not the last
   allowed one, ends with an enrollment it has just retired.  The cursor has then lost
   its time, and the next query refuses it: `raised`.
   */
  method SweepEnrollments(store: Store, table: seq<nat>) returns (raised: bool, total: nat)
    requires DueIndex(store.enrollments, store.clock, table)
    modifies store
    ensures total <= |table| && HandledUpTo(old(store.Now()), store.Now(), table, total)
    ensures raised <==> exists b :: CursorLost(old(store.Now()), table, b)
    ensures !raised ==> total == if |table| <= 2000 then |table| else 2000
  {
    hide HandledUpTo, Handled, CursorLost, DueIndex, Due, Select;
    ghost var w := store.Now();
    total := 0;
    var cursor := Start;
    var batches := 0;
    SweepStarts(w, table);
    while batches < MAX_BATCHES
      invariant batches <= MAX_BATCHES && total == BATCH_SIZE * batches <= |table|
      invariant forall i | 0 <= i < |table| :: table[i] < |store.enrollments|
      invariant HandledUpTo(w, store.Now(), table, total)
      invariant total == 0 ==> cursor == Start
      invariant total > 0 ==> cursor == After(store.enrollments[table[total - 1]].nextRunAt, table[total - 1])
      invariant forall b | 1 <= b < batches :: !CursorLost(w, table, b)
    {
      CursorKept(w, store.Now(), table, batches);
      if cursor.After? && cursor.runAt.None? { return true, total; }
      NextPage(w, store.Now(), table, total, cursor);
      var page := Select(store.enrollments, table, store.clock, cursor);
      var claimed := if |page| <= BATCH_SIZE then |page| else BATCH_SIZE;
      SweepRows(store, table, total, total + claimed, w);
      total := total + claimed;
      batches := batches + 1;
      if claimed < BATCH_SIZE {
        NoMoreFullBatches(w, table, batches);
        return false, total;
      }
      StillThere(w, store.Now(), table, total);
      cursor := After(store.enrollments[table[total - 1]].nextRunAt, table[total - 1]);
    }
    NoMoreFullBatches(w, table, batches);
    return false, total;
  }

  lemma SweepStarts(w: World, table: seq<nat>)
    requires DueIndex(w.enrollments, w.clock, table)
    ensures HandledUpTo(w, w, table, 0) && forall i | 0 <= i < |table| :: table[i] < |w.enrollments|
  {
  }

  lemma StillThere(w: World, t: World, table: seq<nat>, k: nat)
    requires DueIndex(w.enrollments, w.clock, table) && k <= |table| && HandledUpTo(w, t, table, k)
    ensures forall i | 0 <= i < |table| :: table[i] < |t.enrollments|
  {
  }

  /** After a full batch that is not the last allowed, the cursor has a time unless its row was retired. */
  lemma CursorKept(w: World, t: World, table: seq<nat>, b: nat)
    requires DueIndex(w.enrollments, w.clock, table) && BATCH_SIZE * b <= |table| && b < MAX_BATCHES
    requires HandledUpTo(w, t, table, BATCH_SIZE * b)
    ensures b > 0 ==> (t.enrollments[table[BATCH_SIZE * b - 1]].nextRunAt.None? <==> CursorLost(w, table, b))
  {
    if b > 0 { assert Handled(w, t, table[BATCH_SIZE * b - 1]); }
  }

  lemma NoMoreFullBatches(w: World, table: seq<nat>, batches: nat)
    requires forall i | 0 <= i < |table| :: table[i] < |w.enrollments|
    requires |table| < BATCH_SIZE * batches || batches == MAX_BATCHES
    requires forall b | 1 <= b < batches :: !CursorLost(w, table, b)
    ensures !exists b :: CursorLost(w, table, b)
  {
  }

  /** With a usable cursor the query's page is exactly the rest of the index. */
  lemma NextPage(w: World, t: World, table: seq<nat>, k: nat, cursor: Cursor)
    requires DueIndex(w.enrollments, w.clock, table) && k <= |table| && HandledUpTo(w, t, table, k)
    requires k == 0 ==> cursor == Start
    requires k > 0 ==> cursor == After(t.enrollments[table[k - 1]].nextRunAt, table[k - 1]) && cursor.runAt.Some?
    ensures Select(t.enrollments, table, t.clock, cursor) == table[k..]
  {
    if k > 0 { assert Handled(w, t, table[k - 1]); }
    forall i | 0 <= i < k ensures !Selected(t.enrollments[table[i]], table[i], t.clock, cursor) {
      assert Handled(w, t, table[i]);
    }
    forall i | k <= i < |table| ensures Selected(t.enrollments[table[i]], table[i], t.clock, cursor) {
      EarlierOnesDiffer(w.enrollments, w.clock, table, i);
      assert table[i] !in table[..k] by { assert forall x | x in table[..k] :: x in table[..i]; }
    }
    SelectIsSuffix(t.enrollments, table, t.clock, cursor, k);
  }

  /** Stopping before the ceiling leaves nothing due that is not queued or retired. */
  lemma StoppingEarlyCoversAll(w: World, t: World, table: seq<nat>, id: nat)
    requires DueIndex(w.enrollments, w.clock, table) && HandledUpTo(w, t, table, |table|)
    requires id < |w.enrollments| && w.enrollments[id].status.Active?
    requires w.enrollments[id].nextRunAt.Some? && w.enrollments[id].nextRunAt.value <= w.clock
    ensures Due(t.enrollments[id], t.clock) ==> StepKey(id, t.enrollments[id].currentStep) in t.queue
    ensures !Due(t.enrollments[id], t.clock) <==> w.enrollments[id].contact in w.gone
  {
    var i :| 0 <= i < |table| && table[i] == id;
    assert Handled(w, t, table[i]);
  }
}
