/** What the pieces of a fanout chunk do, proved once for every invariant that needs it. */
module BroadcastFacts {
  import opened Queue
  import opened Broadcast

  ghost predicate UniqueContacts(rows: seq<Recipient>) {
    forall i, j | 0 <= i < j < |rows| && rows[i].contact.Some? :: rows[i].contact != rows[j].contact
  }

  /** A row written by fanout: named, without a message, pending or skipped. */
  predicate Fresh(row: Recipient) {
    row.contact.Some? && row.message.None? && (row.status.Pending? || row.status.Skipped?)
  }

  /** `bulk_create(ignore_conflicts)` keeps every old row, covers the chunk and never repeats a contact. */
  lemma {:induction false} InsertMissingFacts(rows: seq<Recipient>, chunk: seq<Candidate>)
    ensures var r := InsertMissing(rows, chunk);
            && rows <= r
            && (forall i | |rows| <= i < |r| :: Fresh(r[i]))
            && (forall c | c in chunk :: HasRow(r, c.contact))
            && (UniqueContacts(rows) ==> UniqueContacts(r))
    decreases |chunk|
  {
    if chunk != [] {
      var c := chunk[0];
      var next := if HasRow(rows, c.contact) then rows else rows + [NewRow(c)];
      InsertMissingFacts(next, chunk[1..]);
      var r := InsertMissing(rows, chunk);
      assert HasRow(next, c.contact) by {
        if !HasRow(rows, c.contact) { assert next[|rows|].contact == Some(c.contact); }
      }
      RowsOnlyGrow(next, r, c.contact);
      forall d | d in chunk ensures HasRow(r, d.contact) {
        if d != c { assert d in chunk[1..]; }
      }
    }
  }

  lemma RowsOnlyGrow(rows: seq<Recipient>, more: seq<Recipient>, contact: nat)
    requires rows <= more && HasRow(rows, contact)
    ensures HasRow(more, contact)
  {
    var i :| 0 <= i < |rows| && rows[i].contact == Some(contact);
    assert more[i].contact == Some(contact);
  }

  /** Arming adds pending send rows aimed at the right recipient, and touches nothing else. */
  lemma {:induction false} ArmFacts(
    queue: Table, rows: seq<Recipient>, chunk: seq<Candidate>, n: int, anchor: real, rate: real)
    requires rate > 0.0
    ensures var r := Arm(queue, rows, chunk, n, anchor, rate);
            && (forall k | k in queue :: k in r && r[k] == queue[k])
            && (forall k | k in r && k !in queue ::
                  && k.SendKey? && r[k].status == ActionStatus.Pending
                  && r[k].target < |rows| && rows[r[k].target].contact == Some(k.contact))
    decreases |chunk|
  {
    if chunk != [] {
      var c := chunk[0].contact;
      if !chunk[0].verdict.Allowed? {
        ArmFacts(queue, rows, chunk[1..], n, anchor, rate);
      } else {
        var armed := if PendingFor(rows, c)
                     then Enqueue(queue, SendKey(c), anchor + n as real / rate, RowOf(rows, c))
                     else queue;
        assert PendingFor(rows, c) ==> HasRow(rows, c);
        ArmFacts(armed, rows, chunk[1..], n + 1, anchor, rate);
      }
    }
  }

  lemma {:induction false} BeyondFacts(audience: seq<Candidate>, cursor: int)
    requires Ascending(audience)
    ensures Ascending(Beyond(audience, cursor))
    ensures forall c | c in Beyond(audience, cursor) :: c.contact > cursor
    ensures forall c | c in audience && c.contact > cursor :: c in Beyond(audience, cursor)
  {
    if audience != [] && audience[0].contact <= cursor {
      BeyondFacts(audience[1..], cursor);
      forall c | c in audience && c.contact > cursor ensures c in Beyond(audience, cursor) {
        assert c in audience[1..];
      }
    }
  }

  /** A chunk either holds a contact past the cursor or stops, full, before it. */
  lemma ChunkCovers(audience: seq<Candidate>, cursor: int, size: nat, contact: nat)
    requires Ascending(audience) && size > 0 && contact > cursor && Includes(audience, contact)
    ensures var chunk := Chunk(audience, cursor, size);
            || (exists c :: c in chunk && c.contact == contact)
            || (|chunk| == size && cursor < chunk[size - 1].contact < contact)
  {
    BeyondFacts(audience, cursor);
    var rest := Beyond(audience, cursor);
    var i :| 0 <= i < |audience| && audience[i].contact == contact;
    assert audience[i] in rest;
    var j :| 0 <= j < |rest| && rest[j] == audience[i];
    var chunk := Chunk(audience, cursor, size);
    if j < |chunk| {
      assert chunk[j] in chunk && chunk[j].contact == contact;
    } else {
      assert chunk[size - 1] == rest[size - 1] && rest[size - 1] in rest;
    }
  }
}
