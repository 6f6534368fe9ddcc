/** The composer's count (`preview`, apps/broadcasts/audience.py) against the candidates a send would see. */
module AudiencePreview {
  import opened Queue
  import opened Audience

  /** One entry of the `skipped` dictionary, in the order the entries came. */
  datatype Skip = Skip(code: nat, count: nat)

  datatype Preview = Preview(total: nat, eligible: nat, skipped: seq<Skip>)

  // ------------------------------------------------------------------ the aggregates

  predicate HasAllowed(rows: seq<Identity>, contact: nat) {
    exists i :: 0 <= i < |rows| && rows[i].contact == contact && rows[i].decision.Allowed?
  }

  predicate HasDenial(rows: seq<Identity>, contact: nat, code: nat) {
    exists i :: 0 <= i < |rows| && rows[i].contact == contact && rows[i].decision == Denied(code)
  }

  predicate HasRow(rows: seq<Identity>, contact: nat) {
    exists i :: 0 <= i < |rows| && rows[i].contact == contact
  }

  /** The contacts with an eligible identity: `eligible_contacts.distinct()`. */
  function EligibleSet(rows: seq<Identity>): set<nat> {
    set i | 0 <= i < |rows| && rows[i].decision.Allowed? :: rows[i].contact
  }

  /** The contacts with none and this denial: one group of the excluding query. */
  function RefusedSet(rows: seq<Identity>, code: nat): set<nat> {
    set i | 0 <= i < |rows| && rows[i].decision == Denied(code) && rows[i].contact !in EligibleSet(rows) :: rows[i].contact
  }

  /** The groups the query returns: the denials of contacts with no eligible identity, each once. */
  function Groups(rows: seq<Identity>, eligible: set<nat>): seq<nat> {
    if rows == [] then []
    else
      var front, last := Groups(rows[..|rows| - 1], eligible), rows[|rows| - 1];
      if last.decision.Denied? && last.contact !in eligible && last.decision.code !in front
      then front + [last.decision.code] else front
  }

  function Counts(rows: seq<Identity>, codes: seq<nat>): seq<Skip> {
    if codes == [] then []
    else
      var front, last := codes[..|codes| - 1], codes[|codes| - 1];
      Counts(rows, front) + [Skip(last, |RefusedSet(rows, last)|)]
  }

  function Total(skipped: seq<Skip>): nat {
    if skipped == [] then 0 else Total(skipped[..|skipped| - 1]) + skipped[|skipped| - 1].count
  }

  /** `skipped.get(code, 0)`. */
  function Needs(skipped: seq<Skip>, code: nat): nat {
    if skipped == [] then 0 else if skipped[|skipped| - 1].code == code then skipped[|skipped| - 1].count
    else Needs(skipped[..|skipped| - 1], code)
  }

  /** `preview`. */
  function PreviewOf(contacts: seq<nat>, rows: seq<Identity>): Preview {
    if contacts == [] then Preview(0, 0, [])
    else
      var eligible := |EligibleSet(rows)|;
      var skipped := Counts(rows, Groups(rows, EligibleSet(rows)));
      var unaccounted := |contacts| - eligible - Total(skipped);
      Preview(|contacts|, eligible,
              if unaccounted > 0 then skipped + [Skip(NO_IDENTITY, Needs(skipped, NO_IDENTITY) + unaccounted)] else skipped)
  }

  /** The rows are of the contacts, and compliance never says of an identity that there is none. */
  ghost predicate InScope(contacts: seq<nat>, rows: seq<Identity>) {
    && Ascending(contacts)
    && (forall i | 0 <= i < |rows| :: rows[i].contact in contacts && rows[i].decision != Denied(NO_IDENTITY))
  }

  // ------------------------------------------------------------------ the best row, in the aggregates' terms

  lemma {:induction false} BestFacts(rows: seq<Identity>, contact: nat)
    ensures Best(rows, contact).Some? <==> HasRow(rows, contact)
    ensures Best(rows, contact).Some? ==> Best(rows, contact).value in rows && Best(rows, contact).value.contact == contact
    ensures HasAllowed(rows, contact) <==> Best(rows, contact).Some? && Best(rows, contact).value.decision.Allowed?
  {
    if rows != [] {
      var front, last := rows[..|rows| - 1], rows[|rows| - 1];
      assert rows == front + [last];
      BestFacts(front, contact);
      assert HasAllowed(rows, contact) <==> HasAllowed(front, contact) || (last.contact == contact && last.decision.Allowed?) by {
        if i :| 0 <= i < |front| && front[i].contact == contact && front[i].decision.Allowed? { assert rows[i] == front[i]; }
        assert rows[|rows| - 1] == last;
      }
      assert HasRow(rows, contact) <==> HasRow(front, contact) || last.contact == contact by {
        if i :| 0 <= i < |front| && front[i].contact == contact { assert rows[i] == front[i]; }
        assert rows[|rows| - 1] == last;
      }
    }
  }

  // ------------------------------------------------------------------ counting contacts one by one

  /** What a contact can be counted for. */
  datatype Test =
    | Reachable                                     // some identity is eligible
    | Refused(code: nat)                            // none is, and one is denied so
    | Turned                                        // none is, and there is one
    | Unknown                                       // no identity at all
    | Sent(suppressed: set<nat>)                    // the candidate is eligible
    | Lost(suppressed: set<nat>)                    // reachable, but the candidate is not eligible
    | Skipped(suppressed: set<nat>, why: nat)       // the candidate is denied so

  predicate Picks(test: Test, rows: seq<Identity>, contact: nat) {
    match test
    case Reachable => HasAllowed(rows, contact)
    case Refused(code) => !HasAllowed(rows, contact) && HasDenial(rows, contact, code)
    case Turned => !HasAllowed(rows, contact) && HasRow(rows, contact)
    case Unknown => !HasRow(rows, contact)
    case Sent(suppressed) => CandidateOf(rows, suppressed, contact).decision.Allowed?
    case Lost(suppressed) => HasAllowed(rows, contact) && !CandidateOf(rows, suppressed, contact).decision.Allowed?
    case Skipped(suppressed, why) => CandidateOf(rows, suppressed, contact).decision == Denied(why)
  }

  function CountOf(contacts: seq<nat>, rows: seq<Identity>, test: Test): nat {
    if contacts == [] then 0
    else CountOf(contacts[..|contacts| - 1], rows, test) + if Picks(test, rows, contacts[|contacts| - 1]) then 1 else 0
  }

  lemma {:induction false} CountIsSet(contacts: seq<nat>, rows: seq<Identity>, test: Test, picked: set<nat>)
    requires Ascending(contacts)
    requires forall c: nat :: c in picked <==> c in contacts && Picks(test, rows, c)
    ensures CountOf(contacts, rows, test) == |picked|
  {
    if contacts == [] {
      assert picked == {};
    } else {
      var front, last := contacts[..|contacts| - 1], contacts[|contacts| - 1];
      assert contacts == front + [last];
      assert last !in front;
      CountIsSet(front, rows, test, picked - {last});
      if Picks(test, rows, last) { assert |picked| == |picked - {last}| + 1; } else { assert picked == picked - {last}; }
    }
  }

  lemma EligibleCounted(contacts: seq<nat>, rows: seq<Identity>)
    requires InScope(contacts, rows)
    ensures CountOf(contacts, rows, Reachable) == |EligibleSet(rows)|
  {
    CountIsSet(contacts, rows, Reachable, EligibleSet(rows));
  }

  lemma RefusedCounted(contacts: seq<nat>, rows: seq<Identity>, code: nat)
    requires InScope(contacts, rows)
    ensures CountOf(contacts, rows, Refused(code)) == |RefusedSet(rows, code)|
  {
    forall c: nat ensures c in RefusedSet(rows, code) <==> c in contacts && Picks(Refused(code), rows, c) {
      assert c in EligibleSet(rows) <==> HasAllowed(rows, c);
    }
    CountIsSet(contacts, rows, Refused(code), RefusedSet(rows, code));
  }

  /** A test no contact passes without passing another, and one more passes the other. */
  lemma {:induction false} CountLess(contacts: seq<nat>, rows: seq<Identity>, a: Test, b: Test, someone: nat)
    requires forall c: nat | c in contacts :: Picks(a, rows, c) ==> Picks(b, rows, c)
    ensures CountOf(contacts, rows, a) <= CountOf(contacts, rows, b)
    ensures someone in contacts && !Picks(a, rows, someone) && Picks(b, rows, someone) ==>
              CountOf(contacts, rows, a) < CountOf(contacts, rows, b)
  {
    if contacts != [] {
      var front, last := contacts[..|contacts| - 1], contacts[|contacts| - 1];
      assert contacts == front + [last];
      CountLess(front, rows, a, b, someone);
    }
  }

  /** Three tests of which every contact passes exactly one, or exactly one when it passes a fourth. */
  lemma {:induction false} CountsAdd(contacts: seq<nat>, rows: seq<Identity>, whole: Test, a: Test, b: Test)
    requires forall c: nat | c in contacts ::
               (Picks(whole, rows, c) <==> Picks(a, rows, c) || Picks(b, rows, c)) && !(Picks(a, rows, c) && Picks(b, rows, c))
    ensures CountOf(contacts, rows, whole) == CountOf(contacts, rows, a) + CountOf(contacts, rows, b)
  {
    if contacts != [] {
      var front, last := contacts[..|contacts| - 1], contacts[|contacts| - 1];
      assert contacts == front + [last];
      CountsAdd(front, rows, whole, a, b);
    }
  }

  /** Everybody is reachable, turned away or unknown. */
  lemma {:induction false} EverybodyOnce(contacts: seq<nat>, rows: seq<Identity>)
    ensures |contacts| == CountOf(contacts, rows, Reachable) + CountOf(contacts, rows, Turned) + CountOf(contacts, rows, Unknown)
  {
    if contacts != [] {
      EverybodyOnce(contacts[..|contacts| - 1], rows);
      BestFacts(rows, contacts[|contacts| - 1]);
    }
  }

  // ------------------------------------------------------------------ what the send sees

  function EligibleCandidates(cs: seq<Candidate>): nat {
    if cs == [] then 0 else EligibleCandidates(cs[..|cs| - 1]) + if cs[|cs| - 1].decision.Allowed? then 1 else 0
  }

  function SkippedFor(cs: seq<Candidate>, code: nat): nat {
    if cs == [] then 0 else SkippedFor(cs[..|cs| - 1], code) + if cs[|cs| - 1].decision == Denied(code) then 1 else 0
  }

  lemma {:induction false} CandidatesCount(rows: seq<Identity>, suppressed: set<nat>, contacts: seq<nat>, code: nat)
    ensures EligibleCandidates(CandidatesOf(rows, suppressed, contacts)) == CountOf(contacts, rows, Sent(suppressed))
    ensures SkippedFor(CandidatesOf(rows, suppressed, contacts), code) == CountOf(contacts, rows, Skipped(suppressed, code))
  {
    if contacts != [] {
      var front := contacts[..|contacts| - 1];
      CandidatesCount(rows, suppressed, front, code);
      var cs := CandidatesOf(rows, suppressed, contacts);
      assert cs[..|cs| - 1] == CandidatesOf(rows, suppressed, front);
    }
  }

  lemma SentOrLost(rows: seq<Identity>, suppressed: set<nat>, contact: nat)
    ensures Picks(Reachable, rows, contact) <==> Picks(Sent(suppressed), rows, contact) || Picks(Lost(suppressed), rows, contact)
    ensures suppressed == {} ==> !Picks(Lost(suppressed), rows, contact)
  {
    BestFacts(rows, contact);
  }

  /**
   The count is of the people a send reaches: as many candidates as `total`, and as many
   eligible ones as `eligible` short of those on the suppression list, so exactly as many
   when no address is suppressed.
   */
  lemma PreviewCountsTheSend(contacts: seq<nat>, rows: seq<Identity>, suppressed: set<nat>)
    requires InScope(contacts, rows)
    ensures var p, cs := PreviewOf(contacts, rows), IterCandidates(contacts, rows, suppressed, None, None);
            && |cs| == p.total
            && EligibleCandidates(cs) + CountOf(contacts, rows, Lost(suppressed)) == p.eligible
            && (suppressed == {} ==> EligibleCandidates(cs) == p.eligible)
  {
    IterIsCandidates(contacts, rows, suppressed, None, None);
    CandidatesCount(rows, suppressed, contacts, 0);
    EligibleCounted(contacts, rows);
    forall c: nat
      ensures Picks(Reachable, rows, c) <==> Picks(Sent(suppressed), rows, c) || Picks(Lost(suppressed), rows, c)
      ensures suppressed == {} ==> !Picks(Lost(suppressed), rows, c)
    {
      SentOrLost(rows, suppressed, c);
    }
    CountsAdd(contacts, rows, Reachable, Sent(suppressed), Lost(suppressed));
    if suppressed == {} { CountsNobody(contacts, rows, Lost(suppressed)); }
  }

  lemma {:induction false} CountsNobody(contacts: seq<nat>, rows: seq<Identity>, test: Test)
    requires forall c: nat :: !Picks(test, rows, c)
    ensures CountOf(contacts, rows, test) == 0
  {
    if contacts != [] { CountsNobody(contacts[..|contacts| - 1], rows, test); }
  }

  // ------------------------------------------------------------------ the skip counts

  /** How many of these denials a contact that is turned away holds. */
  function Denials(rows: seq<Identity>, contact: nat, codes: seq<nat>): nat {
    if codes == [] then 0
    else
      Denials(rows, contact, codes[..|codes| - 1])
      + if Picks(Refused(codes[|codes| - 1]), rows, contact) then 1 else 0
  }

  function AllDenials(contacts: seq<nat>, rows: seq<Identity>, codes: seq<nat>): nat {
    if contacts == [] then 0
    else AllDenials(contacts[..|contacts| - 1], rows, codes) + Denials(rows, contacts[|contacts| - 1], codes)
  }

  lemma {:induction false} AllDenialsSplit(contacts: seq<nat>, rows: seq<Identity>, codes: seq<nat>)
    requires codes != []
    ensures AllDenials(contacts, rows, codes) ==
            AllDenials(contacts, rows, codes[..|codes| - 1]) + CountOf(contacts, rows, Refused(codes[|codes| - 1]))
  {
    if contacts != [] { AllDenialsSplit(contacts[..|contacts| - 1], rows, codes); }
  }

  lemma {:induction false} NoDenials(contacts: seq<nat>, rows: seq<Identity>)
    ensures AllDenials(contacts, rows, []) == 0
  {
    if contacts != [] { NoDenials(contacts[..|contacts| - 1], rows); }
  }

  /** Adding up the groups counts every denial of every contact turned away. */
  lemma {:induction false} TotalIsDenials(contacts: seq<nat>, rows: seq<Identity>, codes: seq<nat>)
    requires InScope(contacts, rows)
    ensures Total(Counts(rows, codes)) == AllDenials(contacts, rows, codes)
  {
    if codes == [] {
      NoDenials(contacts, rows);
    } else {
      var front, last := codes[..|codes| - 1], codes[|codes| - 1];
      TotalIsDenials(contacts, rows, front);
      AllDenialsSplit(contacts, rows, codes);
      RefusedCounted(contacts, rows, last);
      var counts := Counts(rows, codes);
      assert counts[..|counts| - 1] == Counts(rows, front);
    }
  }

  predicate Distinct(codes: seq<nat>) {
    forall i, j | 0 <= i < j < |codes| :: codes[i] != codes[j]
  }

  /** The groups are the denials of those turned away, each once. */
  lemma {:induction false} GroupsFacts(rows: seq<Identity>, eligible: set<nat>)
    ensures Distinct(Groups(rows, eligible))
    ensures forall code :: code in Groups(rows, eligible) <==>
              (exists i :: 0 <= i < |rows| && rows[i].decision == Denied(code) && rows[i].contact !in eligible)
  {
    if rows != [] {
      var front, last := rows[..|rows| - 1], rows[|rows| - 1];
      assert rows == front + [last];
      GroupsFacts(front, eligible);
      forall code
        ensures code in Groups(rows, eligible) <==>
                (exists i :: 0 <= i < |rows| && rows[i].decision == Denied(code) && rows[i].contact !in eligible)
      {
        if i :| 0 <= i < |front| && front[i].decision == Denied(code) && front[i].contact !in eligible {
          assert rows[i] == front[i];
        }
        assert rows[|rows| - 1] == last;
      }
    }
  }

  /** Not turned away, or turned away for one reason only. */
  ghost predicate OneDenial(rows: seq<Identity>, contact: nat) {
    forall a, b :: Picks(Refused(a), rows, contact) && Picks(Refused(b), rows, contact) ==> a == b
  }

  lemma {:induction false} DenialsFacts(rows: seq<Identity>, contact: nat, codes: seq<nat>)
    requires Distinct(codes)
    ensures !Picks(Turned, rows, contact) ==> Denials(rows, contact, codes) == 0
    ensures (exists code :: code in codes && Picks(Refused(code), rows, contact)) ==> Denials(rows, contact, codes) >= 1
    ensures OneDenial(rows, contact) ==> Denials(rows, contact, codes) <= 1
  {
    if codes != [] {
      var front, last := codes[..|codes| - 1], codes[|codes| - 1];
      assert codes == front + [last];
      DenialsFacts(rows, contact, front);
      assert last !in front;
      NoneLeft(rows, contact, front);
    }
  }

  lemma {:induction false} NoneLeft(rows: seq<Identity>, contact: nat, codes: seq<nat>)
    requires Distinct(codes)
    ensures (forall a | a in codes :: !Picks(Refused(a), rows, contact)) ==> Denials(rows, contact, codes) == 0
  {
    if codes != [] {
      assert codes[|codes| - 1] in codes;
      NoneLeft(rows, contact, codes[..|codes| - 1]);
    }
  }

  /** Somebody turned away holds a denial that has a group. */
  lemma TurnedHasGroup(rows: seq<Identity>, contact: nat)
    requires Picks(Turned, rows, contact)
    ensures exists code :: code in Groups(rows, EligibleSet(rows)) && Picks(Refused(code), rows, contact)
  {
    var i :| 0 <= i < |rows| && rows[i].contact == contact;
    assert rows[i].decision.Denied?;
    GroupsFacts(rows, EligibleSet(rows));
    assert rows[i].contact !in EligibleSet(rows);
    var code := rows[i].decision.code;
    assert rows[i].decision == Denied(code);
    assert code in Groups(rows, EligibleSet(rows)) && Picks(Refused(code), rows, contact);
  }

  /** Every contact turned away is counted at least once, and nobody else. */
  lemma {:induction false} DenialsCoverTurned(contacts: seq<nat>, rows: seq<Identity>)
    ensures AllDenials(contacts, rows, Groups(rows, EligibleSet(rows))) >= CountOf(contacts, rows, Turned)
    ensures (forall c | c in contacts :: OneDenial(rows, c)) ==>
              AllDenials(contacts, rows, Groups(rows, EligibleSet(rows))) == CountOf(contacts, rows, Turned)
  {
    if contacts != [] {
      var front, last := contacts[..|contacts| - 1], contacts[|contacts| - 1];
      assert contacts == front + [last];
      var codes := Groups(rows, EligibleSet(rows));
      DenialsCoverTurned(front, rows);
      GroupsFacts(rows, EligibleSet(rows));
      DenialsFacts(rows, last, codes);
      if Picks(Turned, rows, last) { TurnedHasGroup(rows, last); }
    }
  }

  lemma {:induction false} CountsFacts(rows: seq<Identity>, codes: seq<nat>, code: nat)
    requires Distinct(codes)
    ensures Needs(Counts(rows, codes), code) == if code in codes then |RefusedSet(rows, code)| else 0
  {
    if codes != [] {
      var front, last := codes[..|codes| - 1], codes[|codes| - 1];
      assert codes == front + [last];
      CountsFacts(rows, front, code);
      var counts := Counts(rows, codes);
      assert counts[..|counts| - 1] == Counts(rows, front);
    }
  }

  /** A code with no group was given to nobody. */
  lemma GroupOrNobody(rows: seq<Identity>, code: nat)
    ensures Needs(Counts(rows, Groups(rows, EligibleSet(rows))), code) == |RefusedSet(rows, code)|
  {
    GroupsFacts(rows, EligibleSet(rows));
    CountsFacts(rows, Groups(rows, EligibleSet(rows)), code);
    if code !in Groups(rows, EligibleSet(rows)) { assert RefusedSet(rows, code) == {}; }
  }

  /**
   The skip counts add up to at least everybody who is not eligible: to exactly that many
   unless the second and further denials of people turned away outnumber the people with no
   identity at all.
   */
  lemma SkipsCoverTheRest(contacts: seq<nat>, rows: seq<Identity>)
    requires InScope(contacts, rows)
    ensures var p := PreviewOf(contacts, rows);
            var extra := AllDenials(contacts, rows, Groups(rows, EligibleSet(rows))) - CountOf(contacts, rows, Turned);
            && p.total - p.eligible == CountOf(contacts, rows, Turned) + CountOf(contacts, rows, Unknown)
            && extra >= 0
            && Total(p.skipped) >= p.total - p.eligible
            && (Total(p.skipped) == p.total - p.eligible <==> extra <= CountOf(contacts, rows, Unknown))
  {
    var codes := Groups(rows, EligibleSet(rows));
    var counts := Counts(rows, codes);
    EligibleCounted(contacts, rows);
    EverybodyOnce(contacts, rows);
    TotalIsDenials(contacts, rows, codes);
    DenialsCoverTurned(contacts, rows);
    GroupOrNobody(rows, NO_IDENTITY);
    assert RefusedSet(rows, NO_IDENTITY) == {};
    var p := PreviewOf(contacts, rows);
    if p.skipped != counts && contacts != [] {
      assert p.skipped[..|p.skipped| - 1] == counts;
    }
  }

  // ------------------------------------------------------------------ reason by reason

  /** With one denial only, the candidate is skipped for that one. */
  lemma SkippedForItsDenial(rows: seq<Identity>, contact: nat, code: nat)
    ensures Picks(Skipped({}, code), rows, contact) ==>
              Picks(Refused(code), rows, contact) || (code == NO_IDENTITY && Picks(Unknown, rows, contact))
    ensures OneDenial(rows, contact) && Picks(Refused(code), rows, contact) ==> Picks(Skipped({}, code), rows, contact)
    ensures code == NO_IDENTITY && Picks(Unknown, rows, contact) ==> Picks(Skipped({}, code), rows, contact)
  {
    BestFacts(rows, contact);
    if Best(rows, contact).Some? && Best(rows, contact).value.decision.Denied? {
      var row := Best(rows, contact).value;
      var i :| 0 <= i < |rows| && rows[i] == row;
      assert HasDenial(rows, contact, row.decision.code);
      assert Picks(Refused(row.decision.code), rows, contact);
    }
  }

  lemma NoIdentityIsUnknown(contacts: seq<nat>, rows: seq<Identity>)
    requires InScope(contacts, rows)
    ensures forall c: nat :: !Picks(Refused(NO_IDENTITY), rows, c)
    ensures CountOf(contacts, rows, Skipped({}, NO_IDENTITY)) == CountOf(contacts, rows, Unknown)
  {
    forall c: nat ensures Picks(Skipped({}, NO_IDENTITY), rows, c) <==> Picks(Unknown, rows, c) {
      SkippedForItsDenial(rows, c, NO_IDENTITY);
    }
    CountLess(contacts, rows, Skipped({}, NO_IDENTITY), Unknown, 0);
    CountLess(contacts, rows, Unknown, Skipped({}, NO_IDENTITY), 0);
  }

  /** What the preview says of each reason. */
  lemma NeedsFacts(contacts: seq<nat>, rows: seq<Identity>, code: nat)
    requires InScope(contacts, rows)
    ensures var p := PreviewOf(contacts, rows);
            && (code != NO_IDENTITY ==> Needs(p.skipped, code) == CountOf(contacts, rows, Refused(code)))
            && ((forall c | c in contacts :: OneDenial(rows, c)) ==>
                  Needs(p.skipped, NO_IDENTITY) == CountOf(contacts, rows, Unknown))
  {
    var codes := Groups(rows, EligibleSet(rows));
    var counts := Counts(rows, codes);
    var p := PreviewOf(contacts, rows);
    GroupOrNobody(rows, code);
    GroupOrNobody(rows, NO_IDENTITY);
    assert RefusedSet(rows, NO_IDENTITY) == {};
    RefusedCounted(contacts, rows, code);
    EligibleCounted(contacts, rows);
    EverybodyOnce(contacts, rows);
    TotalIsDenials(contacts, rows, codes);
    DenialsCoverTurned(contacts, rows);
    if contacts != [] && p.skipped != counts {
      assert p.skipped[..|p.skipped| - 1] == counts;
    }
  }

  lemma ReasonsAgree(contacts: seq<nat>, rows: seq<Identity>, code: nat)
    requires InScope(contacts, rows) && forall c | c in contacts :: OneDenial(rows, c)
    ensures Needs(PreviewOf(contacts, rows).skipped, code) == SkippedFor(IterCandidates(contacts, rows, {}, None, None), code)
  {
    IterIsCandidates(contacts, rows, {}, None, None);
    CandidatesCount(rows, {}, contacts, code);
    NeedsFacts(contacts, rows, code);
    NoIdentityIsUnknown(contacts, rows);
    if code != NO_IDENTITY {
      forall c: nat | c in contacts ensures Picks(Skipped({}, code), rows, c) <==> Picks(Refused(code), rows, c) {
        SkippedForItsDenial(rows, c, code);
      }
      CountLess(contacts, rows, Skipped({}, code), Refused(code), 0);
      CountLess(contacts, rows, Refused(code), Skipped({}, code), 0);
    }
  }

  /** Of two denials of one contact, the one the candidate does not carry is counted too often. */
  lemma SecondDenialCountsTwice(contacts: seq<nat>, rows: seq<Identity>, contact: nat, code: nat)
    requires InScope(contacts, rows) && contact in contacts && code != NO_IDENTITY
    requires Picks(Refused(code), rows, contact) && !Picks(Skipped({}, code), rows, contact)
    ensures Needs(PreviewOf(contacts, rows).skipped, code) > SkippedFor(IterCandidates(contacts, rows, {}, None, None), code)
  {
    IterIsCandidates(contacts, rows, {}, None, None);
    CandidatesCount(rows, {}, contacts, code);
    NeedsFacts(contacts, rows, code);
    forall c: nat | c in contacts ensures Picks(Skipped({}, code), rows, c) ==> Picks(Refused(code), rows, c) {
      SkippedForItsDenial(rows, c, code);
    }
    CountLess(contacts, rows, Skipped({}, code), Refused(code), contact);
  }

  ghost predicate ReasonsExact(contacts: seq<nat>, rows: seq<Identity>) {
    forall code: nat ::
      Needs(PreviewOf(contacts, rows).skipped, code) == SkippedFor(IterCandidates(contacts, rows, {}, None, None), code)
  }

  /**
   With no suppressed address, the preview's reasons are the reasons the send will record,
   every one of them, exactly when nobody turned away holds two different denials.
   */
  lemma ReasonsExactIff(contacts: seq<nat>, rows: seq<Identity>)
    requires InScope(contacts, rows)
    ensures ReasonsExact(contacts, rows) <==> forall c | c in contacts :: OneDenial(rows, c)
  {
    if forall c | c in contacts :: OneDenial(rows, c) {
      forall code: nat
        ensures Needs(PreviewOf(contacts, rows).skipped, code) ==
                SkippedFor(IterCandidates(contacts, rows, {}, None, None), code)
      {
        ReasonsAgree(contacts, rows, code);
      }
    } else {
      var c :| c in contacts && !OneDenial(rows, c);
      var a, b :| Picks(Refused(a), rows, c) && Picks(Refused(b), rows, c) && a != b;
      NoIdentityIsUnknown(contacts, rows);
      if Picks(Skipped({}, a), rows, c) {
        SecondDenialCountsTwice(contacts, rows, c, b);
      } else {
        SecondDenialCountsTwice(contacts, rows, c, a);
      }
    }
  }
}
