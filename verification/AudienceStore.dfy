/** The audience module's loops: the dictionary of best rows, the aggregate count, the set-wise bind. */
module AudienceStore {
  import opened Queue
  import opened Audience
  import opened AudiencePreview

  /** The query's `ORDER BY`, as far as it matters: within a contact, best first. */
  ghost predicate BestFirst(rows: seq<Identity>) {
    forall i, j | 0 <= i < j < |rows| && rows[i].contact == rows[j].contact :: Before(rows[i], rows[j])
  }

  lemma NotBoth(a: Identity, b: Identity)
    ensures !(Before(a, b) && Before(b, a))
  {
  }

  /** The first row of a contact. */
  predicate FirstOf(rows: seq<Identity>, contact: nat, i: nat) {
    i < |rows| && rows[i].contact == contact && forall j | 0 <= j < i :: rows[j].contact != contact
  }

  /** In a best-first list the best row of a contact is the first of that contact. */
  lemma {:induction false} FirstIsBest(rows: seq<Identity>, contact: nat)
    requires BestFirst(rows)
    ensures Best(rows, contact).Some? ==> exists i: nat :: FirstOf(rows, contact, i) && rows[i] == Best(rows, contact).value
  {
    hide Before;
    if rows != [] {
      var n := |rows| - 1;
      var front, last := rows[..n], rows[n];
      FirstIsBest(front, contact);
      BestFacts(front, contact);
      if Best(front, contact).Some? {
        var i: nat :| FirstOf(front, contact, i) && front[i] == Best(front, contact).value;
        assert rows[i] == front[i] && FirstOf(rows, contact, i);
        if last.contact == contact { NotBoth(rows[i], rows[n]); }
      } else if last.contact == contact {
        assert forall j | 0 <= j < n :: rows[j] == front[j];
        assert FirstOf(rows, contact, n);
      }
    }
  }

  /** `best.setdefault(...)` over the ordered rows: the first row of each contact is kept. */
  method PickBest(rows: seq<Identity>) returns (best: map<nat, Identity>)
    requires BestFirst(rows)
    ensures forall c: nat :: (c in best <==> Best(rows, c).Some?) && (c in best ==> best[c] == Best(rows, c).value)
    ensures forall c | c in best :: Preferred(rows, c, best[c])
    ensures forall row | row in rows :: row.contact in best
  {
    hide Preferred;
    forall c: nat
      ensures match Best(rows, c)
              case Some(row) => Preferred(rows, c, row)
              case None => forall row | row in rows :: row.contact != c
    {
      BestIsPreferred(rows, c);
    }
    best := map[];
    for k := 0 to |rows|
      invariant forall c: nat ::
          && (c in best <==> Best(rows[..k], c).Some?) && (c in best ==> best[c] == Best(rows[..k], c).value)
    {
      var row := rows[k];
      assert rows[..k + 1][..k] == rows[..k];
      if row.contact in best {
        KeepsFirst(rows, k);
      } else {
        best := best[row.contact := row];
      }
    }
    assert rows[..|rows|] == rows;
  }

  /** A later row of a contact never displaces the one kept. */
  lemma KeepsFirst(rows: seq<Identity>, k: nat)
    requires BestFirst(rows) && k < |rows| && Best(rows[..k], rows[k].contact).Some?
    ensures !Before(rows[k], Best(rows[..k], rows[k].contact).value)
  {
    FirstIsBest(rows[..k], rows[k].contact);
    var i: nat :| FirstOf(rows[..k], rows[k].contact, i) && rows[..k][i] == Best(rows[..k], rows[k].contact).value;
    NotBoth(rows[i], rows[k]);
    assert Before(rows[i], rows[k]);
  }

  /** The body of `iter_candidates` for one chunk's contacts and its query's rows. */
  method YieldCandidates(chunk: seq<nat>, rows: seq<Identity>, suppressed: set<nat>) returns (cs: seq<Candidate>)
    requires BestFirst(rows)
    ensures cs == CandidatesOf(rows, suppressed, chunk)
    ensures |cs| == |chunk| && forall k | 0 <= k < |cs| :: cs[k].contact == chunk[k]
    ensures forall k | 0 <= k < |cs| :: Judged(rows, suppressed, chunk[k], cs[k])
  {
    hide Judged, Preferred;
    forall contact: nat ensures Judged(rows, suppressed, contact, CandidateOf(rows, suppressed, contact)) {
      CandidateIsJudged(rows, suppressed, contact);
    }
    forall k | 0 <= k < |chunk| ensures CandidatesOf(rows, suppressed, chunk)[k] == CandidateOf(rows, suppressed, chunk[k]) {
      CandidateAt(rows, suppressed, chunk, k);
    }
    cs := [];
    if chunk == [] { return; }
    var best := PickBest(rows);
    for k := 0 to |chunk|
      invariant cs == CandidatesOf(rows, suppressed, chunk[..k])
      invariant |cs| == k && forall j | 0 <= j < k :: cs[j].contact == chunk[j]
    {
      var contact := chunk[k];
      assert chunk[..k + 1][..k] == chunk[..k];
      if contact !in best {
        cs := cs + [Candidate(contact, None, Denied(NO_IDENTITY))];
      } else {
        var row := best[contact];
        var decision := row.decision;
        if decision.Allowed? && row.address in suppressed { decision := Denied(OPTED_OUT); }
        BestFacts(rows, contact);
        cs := cs + [Candidate(contact, Some(row.pk), decision)];
      }
    }
    assert chunk[..|chunk|] == chunk;
  }

  /** `preview`: three aggregates and a subtraction. */
  method Count(contacts: seq<nat>, rows: seq<Identity>) returns (p: Preview)
    ensures p == PreviewOf(contacts, rows)
  {
    if |contacts| == 0 { return Preview(0, 0, []); }
    var eligible := EligibleSet(rows);
    var codes := Groups(rows, eligible);
    var skipped, sum := [], 0;
    for k := 0 to |codes|
      invariant skipped == Counts(rows, codes[..k]) && sum == Total(skipped)
    {
      assert codes[..k + 1][..k] == codes[..k];
      var n := |RefusedSet(rows, codes[k])|;
      assert (skipped + [Skip(codes[k], n)])[..|skipped|] == skipped;
      skipped := skipped + [Skip(codes[k], n)];
      sum := sum + n;
    }
    assert codes[..|codes|] == codes;
    var unaccounted := |contacts| - |eligible| - sum;
    if unaccounted > 0 {
      skipped := skipped + [Skip(NO_IDENTITY, Needs(skipped, NO_IDENTITY) + unaccounted)];
    }
    return Preview(|contacts|, |eligible|, skipped);
  }

  // ------------------------------------------------------------------ binding pending addresses

  /** A stored address; `connection` is `None` while it is pending. */
  datatype Address = Address(contact: nat, connection: Option<nat>, platform: nat, user: nat)

  /** `identity_unique_conn_user` and `identity_unique_pending`, within one workspace. */
  ghost predicate UniqueAddresses(rows: seq<Address>) {
    forall i, j | 0 <= i < j < |rows| && rows[i].user == rows[j].user && rows[i].connection == rows[j].connection
                  && (rows[i].connection.Some? || rows[i].platform == rows[j].platform) :: false
  }

  predicate Known(rows: seq<Address>, connection: nat, user: nat) {
    exists i :: 0 <= i < |rows| && rows[i].connection == Some(connection) && rows[i].user == user
  }

  /** The pending rows the statement updates. */
  predicate Binds(rows: seq<Address>, row: Address, audience: set<nat>, connection: nat, platform: nat) {
    && row.contact in audience && row.connection.None? && row.platform == platform
    && !Known(rows, connection, row.user)
  }

  function BoundRow(rows: seq<Address>, row: Address, audience: set<nat>, connection: nat, platform: nat): Address {
    if Binds(rows, row, audience, connection, platform) then row.(connection := Some(connection)) else row
  }

  function BoundRows(rows: seq<Address>, audience: set<nat>, connection: nat, platform: nat): (r: seq<Address>)
    ensures |r| == |rows|
    ensures forall k | 0 <= k < |rows| :: r[k] == BoundRow(rows, rows[k], audience, connection, platform)
  {
    seq(|rows|, k requires 0 <= k < |rows| => BoundRow(rows, rows[k], audience, connection, platform))
  }

  /** `bind_pending_identities`: one statement, so every row is judged against the table as it was. */
  method BindPending(rows: seq<Address>, audience: set<nat>, connection: nat, platform: nat)
    returns (after: seq<Address>, bound: nat)
    ensures after == BoundRows(rows, audience, connection, platform)
    ensures |after| == |rows|
    ensures forall k | 0 <= k < |rows| ::
              after[k] == if rows[k].contact in audience && rows[k].connection.None? && rows[k].platform == platform
                             && !(exists i :: 0 <= i < |rows| && rows[i].connection == Some(connection) && rows[i].user == rows[k].user)
                          then Address(rows[k].contact, Some(connection), platform, rows[k].user) else rows[k]
    ensures bound == 0 <==> after == rows
  {
    after, bound := [], 0;
    for k := 0 to |rows|
      invariant |after| == k && bound <= k
      invariant forall j | 0 <= j < k :: after[j] == BoundRow(rows, rows[j], audience, connection, platform)
      invariant bound == 0 <==> after == rows[..k]
    {
      var row := rows[k];
      assert rows[..k + 1] == rows[..k] + [row];
      if Binds(rows, row, audience, connection, platform) {
        row := row.(connection := Some(connection));
        bound := bound + 1;
        assert (after + [row])[k] != rows[..k + 1][k];
      }
      assert bound > 0 && after != rows[..k] ==> after + [row] != rows[..k + 1] by {
        assert (after + [row])[..k] == after && rows[..k + 1][..k] == rows[..k];
      }
      after := after + [row];
    }
    assert rows[..|rows|] == rows;
  }

  /**
   Binding keeps both unique constraints, leaves pending only the addresses the connection
   already knew, and changes nothing when done again.
   */
  lemma BindIsSafe(rows: seq<Address>, audience: set<nat>, connection: nat, platform: nat)
    requires UniqueAddresses(rows)
    ensures var after := BoundRows(rows, audience, connection, platform);
            && UniqueAddresses(after)
            && BoundRows(after, audience, connection, platform) == after
            && forall k | 0 <= k < |after| && after[k].contact in audience && after[k].connection.None? && after[k].platform == platform ::
                 after[k] == rows[k] && Known(rows, connection, after[k].user)
  {
    var after := BoundRows(rows, audience, connection, platform);
    forall i, j | 0 <= i < j < |after| && after[i].user == after[j].user && after[i].connection == after[j].connection
                  && (after[i].connection.Some? || after[i].platform == after[j].platform)
      ensures false
    {
      assert rows[i].user == rows[j].user;
      if rows[i].connection == Some(connection) {
        assert Known(rows, connection, rows[i].user);
      } else if rows[j].connection == Some(connection) {
        assert Known(rows, connection, rows[j].user);
      }
    }
    forall k | 0 <= k < |after| ensures !Binds(after, after[k], audience, connection, platform) {
      if after[k].contact in audience && after[k].connection.None? && after[k].platform == platform {
        var i :| 0 <= i < |rows| && rows[i].connection == Some(connection) && rows[i].user == rows[k].user;
        assert after[i] == rows[i];
        assert Known(after, connection, after[k].user);
      }
    }
  }
}
