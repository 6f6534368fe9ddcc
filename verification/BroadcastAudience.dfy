/** The composer's count against the recipient rows a finished broadcast leaves. */
module BroadcastAudience {
  import opened Queue
  import B = Broadcast
  import A = Audience
  import P = AudiencePreview
  import BroadcastCounters
  import BroadcastPacing
  import BroadcastTheorems

  /** A resolved audience as fanout sees it; `name` spells a denial code. */
  function Resolved(cs: seq<A.Candidate>, name: nat -> string): (r: seq<B.Candidate>)
    ensures |r| == |cs| && forall i | 0 <= i < |cs| :: r[i].contact == cs[i].contact
    ensures forall i | 0 <= i < |cs| :: r[i].verdict.Allowed? <==> cs[i].decision.Allowed?
  {
    seq(|cs|, i requires 0 <= i < |cs| =>
      B.Candidate(cs[i].contact,
                  if cs[i].decision.Allowed? then B.Verdict.Allowed else B.Verdict.Denied(name(cs[i].decision.code))))
  }

  lemma {:induction false} RankIsEligible(cs: seq<A.Candidate>, full: seq<B.Candidate>, n: nat)
    requires n <= |cs| == |full|
    requires forall i | 0 <= i < |cs| :: full[i].verdict.Allowed? <==> cs[i].decision.Allowed?
    ensures BroadcastPacing.Rank(full, n) == P.EligibleCandidates(cs[..n])
  {
    if n > 0 {
      RankIsEligible(cs, full, n - 1);
      assert cs[..n][..n - 1] == cs[..n - 1];
    }
  }

  lemma {:induction false} SkippedIsTheRest(rows: seq<B.Recipient>, messages: B.Messages)
    ensures B.Tally(rows, messages).skipped + B.NotSkipped(rows) == |rows|
  {
    if rows != [] {
      var front, last := rows[..|rows| - 1], rows[|rows| - 1];
      SkippedIsTheRest(front, messages);
      SkippedShare(last, messages);
      assert B.Tally(rows, messages).skipped == B.Tally(front, messages).skipped + B.Share(last, messages).skipped;
    }
  }

  lemma QueuedIsEverybody(rows: seq<B.Recipient>, messages: B.Messages)
    ensures B.Tally(rows, messages).queued == |rows|
  {
    hide B.Tally;
    BroadcastCounters.Conservation(rows, messages);
  }

  lemma SkippedShare(row: B.Recipient, messages: B.Messages)
    ensures B.Share(row, messages).skipped == if row.status.Skipped? then 1 else 0
  {
  }

  /** The first contact not expanded yet has no row. */
  lemma NotYet(full: seq<B.Candidate>, rows: seq<B.Recipient>)
    requires B.Ascending(full) && BroadcastPacing.Mirrors(full, rows) && |rows| < |full|
    ensures !B.HasRow(rows, full[|rows|].contact)
  {
    assert forall i | 0 <= i < |rows| :: full[i].contact < full[|rows|].contact;
  }

  /** Rows that mirror a prefix of the audience and cover all of it mirror all of it. */
  lemma CoversAll(full: seq<B.Candidate>, rows: seq<B.Recipient>)
    requires B.Ascending(full) && BroadcastPacing.Mirrors(full, rows)
    requires forall i | 0 <= i < |full| :: B.HasRow(rows, full[i].contact)
    ensures |rows| == |full|
  {
    if |rows| < |full| { NotYet(full, rows); }
  }

  lemma AllHaveRows(contacts: seq<nat>, full: seq<B.Candidate>, rows: seq<B.Recipient>)
    requires |contacts| == |full| && forall i | 0 <= i < |full| :: full[i].contact == contacts[i]
    requires forall c | c in contacts :: BroadcastTheorems.ExactlyOneRow(rows, c)
    ensures forall i | 0 <= i < |full| :: B.HasRow(rows, full[i].contact)
  {
    assert forall i | 0 <= i < |full| :: full[i].contact in contacts;
  }

  /**
   The preview and the record reconcile. Over fixed data with no suppressed address, no
   send-time skip and no erasure, a broadcast that finishes, by whatever run, has as many
   recipients as the preview's total and as many skipped ones as it said would not be reached.
   */
  lemma RecipientsMatchThePreview(
    contacts: seq<nat>, identities: seq<A.Identity>, name: nat -> string, size: nat, rate: real,
    stable: set<nat>, steps: seq<B.Step>)
    requires P.InScope(contacts, identities) && size > 0 && rate > 0.0
    requires forall c :: c in stable <==> c in contacts
    requires B.Legal(stable, B.DRAFT, steps) && B.Exec(stable, B.DRAFT, steps).status.Sent?
    requires BroadcastPacing.SteadyRun(Resolved(A.IterCandidates(contacts, identities, {}, None, None), name), size, rate, steps)
    ensures var p := P.PreviewOf(contacts, identities);
            var s := B.Exec(stable, B.DRAFT, steps);
            var live := B.Tally(s.rows, s.messages);
            live.queued == p.total && live.skipped == p.total - p.eligible && live.pending == 0
  {
    hide A.IterCandidates, P.PreviewOf, P.EligibleCandidates, B.Legal, B.Exec, B.Tally;
    var cs := A.IterCandidates(contacts, identities, {}, None, None);
    var full := Resolved(cs, name);
    var s := B.Exec(stable, B.DRAFT, steps);
    CandidatesAscend(contacts, identities);
    assert BroadcastPacing.Paced(full, size, B.DRAFT);
    BroadcastPacing.MirroredRun(full, size, rate, stable, B.DRAFT, steps);
    BroadcastTheorems.NoTruncation(stable, steps);
    P.PreviewCountsTheSend(contacts, identities, {});
    assert BroadcastPacing.Mirrors(full, s.rows);
    hide *;
    FinishedRows(contacts, cs, full, s);
  }

  /** In an audience read from the contacts, everybody is a contact and comes in order. */
  lemma CandidatesAscend(contacts: seq<nat>, identities: seq<A.Identity>)
    requires A.Ascending(contacts)
    ensures var cs := A.IterCandidates(contacts, identities, {}, None, None);
            |cs| == |contacts| && forall i | 0 <= i < |cs| :: cs[i].contact == contacts[i]
  {
    A.IterIsCandidates(contacts, identities, {}, None, None);
    forall i | 0 <= i < |contacts|
      ensures A.CandidatesOf(identities, {}, contacts)[i].contact == contacts[i]
    {
      A.CandidateAt(identities, {}, contacts, i);
    }
  }

  lemma FinishedRows(
    contacts: seq<nat>, cs: seq<A.Candidate>, full: seq<B.Candidate>, s: B.State)
    requires |cs| == |contacts| == |full| && B.Ascending(full) && BroadcastPacing.Mirrors(full, s.rows)
    requires forall i | 0 <= i < |full| :: full[i].contact == contacts[i]
    requires forall i | 0 <= i < |cs| :: full[i].verdict.Allowed? <==> cs[i].decision.Allowed?
    requires !B.AnyPending(s.rows) && forall c | c in contacts :: BroadcastTheorems.ExactlyOneRow(s.rows, c)
    ensures var live := B.Tally(s.rows, s.messages);
            live.queued == |cs| && live.skipped == |cs| - P.EligibleCandidates(cs) && live.pending == 0
  {
    hide *;
    QueuedIsEverybody(s.rows, s.messages);
    AllHaveRows(contacts, full, s.rows);
    CoversAll(full, s.rows);
    BroadcastPacing.NotSkippedIsRank(full, s.rows);
    RankIsEligible(cs, full, |cs|);
    assert cs[..|cs|] == cs;
    SkippedIsTheRest(s.rows, s.messages);
    BroadcastCounters.NonePendingIffZero(s.rows, s.messages);
  }
}
