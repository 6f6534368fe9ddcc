/**
 Who a broadcast goes to (apps/broadcasts/audience.py): one candidate per contact, picked
 chunk by chunk, against the composer's set-wise count of the same people.
 */
module Audience {
  import opened Queue

  /** The compliance verdict on an identity. */
  datatype Decision = Allowed(code: nat) | Denied(code: nat)

  const NO_IDENTITY := 0
  const OPTED_OUT := 1

  /** An identity in scope, annotated. `bound` is false for a pending record with no connection yet. */
  datatype Identity = Identity(contact: nat, pk: nat, bound: bool, address: nat, decision: Decision)

  datatype Candidate = Candidate(contact: nat, identity: Option<nat>, decision: Decision)

  // ------------------------------------------------------------------ the best identity

  /** The query's order within one contact: eligible first, then the bound one, then by id. */
  predicate Before(a: Identity, b: Identity) {
    || (a.decision.Allowed? && b.decision.Denied?)
    || (a.decision.Allowed? == b.decision.Allowed? && a.bound && !b.bound)
    || (a.decision.Allowed? == b.decision.Allowed? && a.bound == b.bound && a.pk < b.pk)
  }

  /** The row a contact is sent through. */
  function Best(rows: seq<Identity>, contact: nat): Option<Identity> {
    if rows == [] then None
    else
      var last, best := rows[|rows| - 1], Best(rows[..|rows| - 1], contact);
      if last.contact == contact && (best.None? || Before(last, best.value)) then Some(last) else best
  }

  /** The candidate of one contact. */
  function CandidateOf(rows: seq<Identity>, suppressed: set<nat>, contact: nat): Candidate {
    match Best(rows, contact)
    case None => Candidate(contact, None, Denied(NO_IDENTITY))
    case Some(row) =>
      Candidate(contact, Some(row.pk),
                if row.decision.Allowed? && row.address in suppressed then Denied(OPTED_OUT) else row.decision)
  }

  function CandidatesOf(rows: seq<Identity>, suppressed: set<nat>, contacts: seq<nat>): (r: seq<Candidate>)
    ensures |r| == |contacts|
  {
    if contacts == [] then []
    else
      var front, last := contacts[..|contacts| - 1], contacts[|contacts| - 1];
      CandidatesOf(rows, suppressed, front) + [CandidateOf(rows, suppressed, last)]
  }

  /** No identity of the contact is to be preferred: an eligible one to a refused, a bound one to a pending, an older one. */
  ghost predicate Preferred(rows: seq<Identity>, contact: nat, best: Identity) {
    && best in rows && best.contact == contact
    && forall row | row in rows && row.contact == contact ::
         && (row.decision.Allowed? ==> best.decision.Allowed?)
         && (row.decision.Allowed? == best.decision.Allowed? ==>
               && (row.bound ==> best.bound)
               && (row.bound == best.bound ==> best.pk <= row.pk))
  }

  lemma {:induction false} BestIsPreferred(rows: seq<Identity>, contact: nat)
    ensures match Best(rows, contact)
            case Some(best) => Preferred(rows, contact, best)
            case None => forall row | row in rows :: row.contact != contact
  {
    if rows != [] {
      var front, last := rows[..|rows| - 1], rows[|rows| - 1];
      BestIsPreferred(front, contact);
      assert rows == front + [last];
      assert forall row :: row in rows <==> row in front || row == last;
    }
  }

  /**
   What a contact's candidate is: without an identity if it has none; else the preferred one,
   with its verdict, or opted out if it is eligible and its address is suppressed.
   */
  ghost predicate Judged(rows: seq<Identity>, suppressed: set<nat>, contact: nat, c: Candidate) {
    && c.contact == contact
    && if c.identity.None? then c.decision == Denied(NO_IDENTITY) && forall row | row in rows :: row.contact != contact
       else exists best :: Preferred(rows, contact, best) && c.identity == Some(best.pk)
              && c.decision == if best.decision.Allowed? && best.address in suppressed then Denied(OPTED_OUT) else best.decision
  }

  lemma CandidateIsJudged(rows: seq<Identity>, suppressed: set<nat>, contact: nat)
    ensures Judged(rows, suppressed, contact, CandidateOf(rows, suppressed, contact))
  {
    BestIsPreferred(rows, contact);
  }

  // ------------------------------------------------------------------ chunks

  /** `filter(pk__gt=after).order_by("pk")[:limit]`. */
  function ChunkOf(contacts: seq<nat>, after: Option<nat>, limit: Option<nat>): seq<nat> {
    var rest := After(contacts, after);
    if limit.Some? && limit.value < |rest| then rest[..limit.value] else rest
  }

  function After(contacts: seq<nat>, after: Option<nat>): seq<nat> {
    if contacts == [] || after.None? || contacts[0] > after.value then contacts else After(contacts[1..], after)
  }

  /** The rows of the chunk's contacts, which is all a chunk's query reads. */
  function RowsFor(rows: seq<Identity>, contacts: seq<nat>): seq<Identity> {
    if rows == [] then []
    else
      var front, last := rows[..|rows| - 1], rows[|rows| - 1];
      if last.contact in contacts then RowsFor(front, contacts) + [last] else RowsFor(front, contacts)
  }

  /** `iter_candidates`. */
  function IterCandidates(
    contacts: seq<nat>, rows: seq<Identity>, suppressed: set<nat>, after: Option<nat>, limit: Option<nat>): seq<Candidate>
  {
    var chunk := ChunkOf(contacts, after, limit);
    CandidatesOf(RowsFor(rows, chunk), suppressed, chunk)
  }

  /** Chunk after chunk, each of the size asked for, from the cursor the last one left, until one comes back empty. */
  function Chunks(contacts: seq<nat>, rows: seq<Identity>, suppressed: set<nat>, after: Option<nat>,
                  sizes: nat -> nat, turn: nat): seq<Candidate>
    requires Ascending(contacts) && forall k :: sizes(k) > 0
    decreases |After(contacts, after)|
  {
    var page := IterCandidates(contacts, rows, suppressed, after, Some(sizes(turn)));
    if page == [] then []
    else
      CursorMoves(contacts, rows, suppressed, after, sizes(turn));
      page + Chunks(contacts, rows, suppressed, Some(page[|page| - 1].contact), sizes, turn + 1)
  }

  ghost predicate Ascending(contacts: seq<nat>) {
    forall i, j | 0 <= i < j < |contacts| :: contacts[i] < contacts[j]
  }

  lemma {:induction false} CandidateAt(rows: seq<Identity>, suppressed: set<nat>, contacts: seq<nat>, k: nat)
    requires k < |contacts|
    ensures CandidatesOf(rows, suppressed, contacts)[k] == CandidateOf(rows, suppressed, contacts[k])
  {
    if k < |contacts| - 1 { CandidateAt(rows, suppressed, contacts[..|contacts| - 1], k); }
  }

  /** A chunk's narrower query picks the same row. */
  lemma {:induction false} BestInChunk(rows: seq<Identity>, contacts: seq<nat>, contact: nat)
    requires contact in contacts
    ensures Best(RowsFor(rows, contacts), contact) == Best(rows, contact)
  {
    if rows != [] {
      var front, last := rows[..|rows| - 1], rows[|rows| - 1];
      BestInChunk(front, contacts, contact);
      var kept := RowsFor(front, contacts);
      assert (kept + [last])[..|kept|] == kept;
    }
  }

  lemma {:induction false} SameCandidates(a: seq<Identity>, b: seq<Identity>, suppressed: set<nat>, contacts: seq<nat>)
    requires forall c | c in contacts :: Best(a, c) == Best(b, c)
    ensures CandidatesOf(a, suppressed, contacts) == CandidatesOf(b, suppressed, contacts)
  {
    if contacts != [] {
      assert contacts[|contacts| - 1] in contacts;
      SameCandidates(a, b, suppressed, contacts[..|contacts| - 1]);
    }
  }

  lemma IterIsCandidates(contacts: seq<nat>, rows: seq<Identity>, suppressed: set<nat>, after: Option<nat>, limit: Option<nat>)
    ensures IterCandidates(contacts, rows, suppressed, after, limit) ==
            CandidatesOf(rows, suppressed, ChunkOf(contacts, after, limit))
  {
    var chunk := ChunkOf(contacts, after, limit);
    forall c | c in chunk ensures Best(RowsFor(rows, chunk), c) == Best(rows, c) {
      BestInChunk(rows, chunk, c);
    }
    SameCandidates(RowsFor(rows, chunk), rows, suppressed, chunk);
  }

  lemma {:induction false} AfterFacts(contacts: seq<nat>, after: Option<nat>)
    requires Ascending(contacts)
    ensures var rest := After(contacts, after);
            Ascending(rest) && |rest| <= |contacts| && rest == contacts[|contacts| - |rest|..]
            && (after.Some? ==> forall c | c in rest :: c > after.value)
    decreases |contacts|
  {
    if contacts != [] && after.Some? && contacts[0] <= after.value {
      AfterFacts(contacts[1..], after);
      var rest := After(contacts, after);
      assert contacts[|contacts| - |rest|..] == contacts[1..][|contacts| - 1 - |rest|..];
    }
  }

  /** Resuming after the `k`th of the contacts left drops exactly those. */
  lemma {:induction false} AfterNext(contacts: seq<nat>, after: Option<nat>, k: nat)
    requires Ascending(contacts) && k < |After(contacts, after)|
    ensures After(contacts, Some(After(contacts, after)[k])) == After(contacts, after)[k + 1..]
    decreases |contacts|
  {
    var rest := After(contacts, after);
    if after.None? || contacts[0] > after.value {
      DropsThrough(contacts, k);
    } else {
      AfterFacts(contacts[1..], after);
      assert rest[k] in rest && rest[k] > contacts[0];
      assert After(contacts, Some(rest[k])) == After(contacts[1..], Some(rest[k]));
      AfterNext(contacts[1..], after, k);
    }
  }

  lemma {:induction false} DropsThrough(contacts: seq<nat>, k: nat)
    requires Ascending(contacts) && k < |contacts|
    ensures After(contacts, Some(contacts[k])) == contacts[k + 1..]
  {
    if k > 0 {
      DropsThrough(contacts[1..], k - 1);
    } else if |contacts| > 1 {
      assert contacts[1..][0] > contacts[0];
    }
  }

  lemma CursorMoves(contacts: seq<nat>, rows: seq<Identity>, suppressed: set<nat>, after: Option<nat>, size: nat)
    requires Ascending(contacts)
    ensures var page := IterCandidates(contacts, rows, suppressed, after, Some(size));
            && page == CandidatesOf(rows, suppressed, ChunkOf(contacts, after, Some(size)))
            && (page != [] ==>
                  After(contacts, Some(page[|page| - 1].contact)) == After(contacts, after)[|page|..]
                  && |page| <= |After(contacts, after)|)
  {
    IterIsCandidates(contacts, rows, suppressed, after, Some(size));
    var chunk := ChunkOf(contacts, after, Some(size));
    if chunk != [] {
      CandidateAt(rows, suppressed, chunk, |chunk| - 1);
      AfterNext(contacts, after, |chunk| - 1);
    }
  }

  lemma {:induction false} CandidatesAppend(rows: seq<Identity>, suppressed: set<nat>, a: seq<nat>, b: seq<nat>)
    ensures CandidatesOf(rows, suppressed, a + b) == CandidatesOf(rows, suppressed, a) + CandidatesOf(rows, suppressed, b)
    decreases |b|
  {
    if b == [] {
      assert a + b == a;
    } else {
      CandidatesAppend(rows, suppressed, a, b[..|b| - 1]);
      assert (a + b)[..|a + b| - 1] == a + b[..|b| - 1];
    }
  }

  lemma {:induction false} ChunksFrom(contacts: seq<nat>, rows: seq<Identity>, suppressed: set<nat>, after: Option<nat>,
                                      sizes: nat -> nat, turn: nat)
    requires Ascending(contacts) && forall k :: sizes(k) > 0
    ensures Chunks(contacts, rows, suppressed, after, sizes, turn) ==
            CandidatesOf(rows, suppressed, After(contacts, after))
    decreases |After(contacts, after)|
  {
    var rest, chunk := After(contacts, after), ChunkOf(contacts, after, Some(sizes(turn)));
    var page := IterCandidates(contacts, rows, suppressed, after, Some(sizes(turn)));
    ChunkThenRest(contacts, after, sizes(turn));
    hide After, ChunkOf, CandidatesOf, IterCandidates;
    CursorMoves(contacts, rows, suppressed, after, sizes(turn));
    if page == [] {
      NoCandidates(rows, suppressed);
    } else {
      ChunksFrom(contacts, rows, suppressed, Some(page[|page| - 1].contact), sizes, turn + 1);
      CandidatesAppend(rows, suppressed, chunk, rest[|page|..]);
    }
  }

  lemma ChunkThenRest(contacts: seq<nat>, after: Option<nat>, size: nat)
    requires size > 0
    ensures var rest, chunk := After(contacts, after), ChunkOf(contacts, after, Some(size));
            |chunk| <= |rest| && rest == chunk + rest[|chunk|..] && (chunk == [] ==> rest == [])
  {
  }

  lemma NoCandidates(rows: seq<Identity>, suppressed: set<nat>)
    ensures CandidatesOf(rows, suppressed, []) == []
  {
  }

  /** Chunks of any sizes, each resuming where the last stopped, put together are the one-shot iteration. */
  lemma ChunksConcatenate(contacts: seq<nat>, rows: seq<Identity>, suppressed: set<nat>, sizes: nat -> nat)
    requires Ascending(contacts) && forall k :: sizes(k) > 0
    ensures Chunks(contacts, rows, suppressed, None, sizes, 0) == IterCandidates(contacts, rows, suppressed, None, None)
  {
    ChunksFrom(contacts, rows, suppressed, None, sizes, 0);
    IterIsCandidates(contacts, rows, suppressed, None, None);
  }
}
