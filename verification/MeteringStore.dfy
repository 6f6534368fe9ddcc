/** The meter over its table, one statement at a time. */
module MeteringStore {
  import opened Queue
  import opened Metering

  class Meter {
    var limit: Option<nat>
    var rows: seq<Row>
    var now: nat
    var gone: set<nat>

    ghost predicate Valid()
      reads this
    {
      Tidy(Now())
    }

    ghost function Now(): State
      reads this
    {
      State(limit, rows, now, map[], gone, 0)
    }

    constructor (limit: Option<nat>, now: nat)
      ensures Valid() && Now() == Fresh(limit, now)
    {
      this.limit, this.now := limit, now;
      rows, gone := [], {};
    }

    /** `is_contact_active`. */
    method IsContactActive(contact: nat, period: nat) returns (found: bool)
      ensures found <==> Active(rows, contact, period)
    {
      found := false;
      for k := 0 to |rows|
        invariant found <==> exists j :: 0 <= j < k && rows[j].contact == contact && rows[j].period == period
      {
        if rows[k].contact == contact && rows[k].period == period { found := true; }
      }
    }

    /** `active_contact_count`. */
    method ActiveContactCount(period: nat) returns (count: nat)
      requires Valid()
      ensures count == ActiveCount(rows, period) == |ContactsIn(rows, period)|
    {
      count := 0;
      for k := 0 to |rows|
        invariant count == ActiveCount(rows[..k], period)
      {
        assert rows[..k + 1][..k] == rows[..k];
        if rows[k].period == period { count := count + 1; }
      }
      assert rows[..|rows|] == rows;
      CountsPeople(rows, period);
    }

    /** `allows_reaching`. */
    method Allows(contact: nat, period: nat) returns (allowed: bool)
      requires Valid()
      ensures allowed == AllowsReaching(limit, rows, contact, period)
    {
      if limit.None? { return true; }
      var active := IsContactActive(contact, period);
      if active { return true; }
      var count := ActiveContactCount(period);
      return count < limit.value;
    }

    /** `mark_reached`: insert, or do nothing on a conflict; a database error is swallowed. */
    method MarkReached(contact: nat, fails: bool, origin: Origin) returns (outcome: MarkOutcome)
      requires Valid()
      modifies this`rows
      ensures Valid()
      ensures rows == Metering.Mark(old(Now()), contact, fails, origin) && outcome == Outcome(old(Now()), contact, fails)
      ensures outcome.Marked? || outcome.Already? ==> Active(rows, contact, now)
      ensures outcome == if limit.None? then NotMetered else if fails || contact in gone then MarkFailed
                         else if exists k :: 0 <= k < |old(rows)| && old(rows)[k].contact == contact && old(rows)[k].period == now
                         then Already else Marked
      ensures rows == old(rows) + if outcome.Marked? then [Row(contact, now, origin)] else []
    {
      if limit.None? { return NotMetered; }
      if fails || contact in gone { return MarkFailed; }
      var active := IsContactActive(contact, now);
      if active { return Already; }
      rows := rows + [Row(contact, now, origin)];
      assert rows[|rows| - 1] == Row(contact, now, origin);
      return Marked;
    }

    /** `meter`: inbound is marked with no gate in front. */
    method MeterInbound(contact: nat, fails: bool) returns (outcome: MarkOutcome)
      requires Valid() && contact !in gone
      modifies this`rows
      ensures Valid() && Now() == Next(old(Now()), Receive(contact, fails))
      ensures outcome == Outcome(old(Now()), contact, fails)
    {
      outcome := MarkReached(contact, fails, Inbound);
    }

    /** `reach`: a read that fails lets the send through. */
    method Reach(contact: nat, unreadable: bool) returns (allowed: bool)
      requires Valid()
      ensures allowed <==> (unreadable && limit.Some?) || AllowsReaching(limit, rows, contact, now)
      ensures Active(rows, contact, now) ==> allowed
      ensures allowed <==>
                || limit.None? || unreadable
                || (exists k :: 0 <= k < |rows| && rows[k].contact == contact && rows[k].period == now)
                || |ContactsIn(rows, now)| < limit.value
    {
      CountsPeople(rows, now);
      if limit.None? || unreadable { return true; }
      allowed := Allows(contact, now);
    }

    /** The cascade of an erased contact. */
    method EraseContact(contact: nat)
      requires Valid() && contact !in gone
      modifies this`rows, this`gone
      ensures Valid() && Now() == Next(old(Now()), Erase(contact))
      ensures forall row :: row in rows <==> row in old(rows) && row.contact != contact
    {
      StepTidy(Now(), Erase(contact), 0);
      ErasedRows(rows, contact);
      var left := [];
      for k := 0 to |rows|
        invariant left == Without(rows[..k], contact)
      {
        assert rows[..k + 1][..k] == rows[..k];
        if rows[k].contact != contact { left := left + [rows[k]]; }
      }
      assert rows[..|rows|] == rows;
      rows := left;
      gone := gone + {contact};
    }
  }
}
