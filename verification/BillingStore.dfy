/** The webhook handler as it runs: rows read, assigned and saved one at a time. */
module BillingStore {
  import opened Queue
  import opened BillingEvents
  import Laws = BillingLaws

  datatype Reply = Found(organization: nat) | Nobody | Clash

  class Billing {
    var customers: map<nat, Customer>
    var log: map<nat, LogRow>
    var organizations: set<nat>

    ghost predicate Valid()
      reads this
    {
      OneOrgEach(customers)
    }

    ghost function Now(): State
      reads this
    {
      State(customers, log, organizations)
    }

    constructor (organizations: set<nat>)
      ensures Valid() && Now() == State(map[], map[], organizations)
    {
      customers, log := map[], map[];
      this.organizations := organizations;
    }

    /** `_customer_for`. */
    method CustomerFor(customerId: string) returns (r: Option<nat>)
      requires Valid()
      ensures r == OrgOf(customers, customerId)
      ensures r.Some? <==> exists org :: org in customers && BoundTo(customers, org, customerId)
    {
      r := None;
      var rest := customers.Keys;
      while customerId != "" && r.None? && rest != {}
        invariant rest <= customers.Keys
        invariant r.Some? ==> BoundTo(customers, r.value, customerId)
        invariant r.None? ==> forall org | org in customers && org !in rest :: !BoundTo(customers, org, customerId)
        decreases rest
      {
        var org :| org in rest;
        rest := rest - {org};
        if customers[org].customerId == customerId { r := Some(org); }
      }
    }

    /** `_claim`: whether the log row was inserted now. */
    method Claim(id: nat, now: int) returns (inserted: bool)
      modifies this`log
      ensures inserted <==> id !in old(log)
      ensures log == if inserted then old(log)[id := LogRow(Received, now)] else old(log)
    {
      inserted := id !in log;
      if inserted { log := log[id := LogRow(Received, now)]; }
    }

    /** `_finish`. */
    method Finish(id: nat, status: EventStatus)
      requires id in log
      modifies this`log
      ensures log == old(log)[id := old(log[id]).(status := status)]
    {
      log := log[id := log[id].(status := status)];
    }

    /** `_bind_customer`. */
    method BindCustomer(customer: string, organization: Option<nat>) returns (r: Reply)
      requires Valid()
      modifies this`customers
      ensures Valid()
      ensures Bind(old(Now()), customer, organization) ==
              match r { case Found(_) => Outcome.Done(customers) case Nobody => NoCustomer case Clash => Conflict }
      ensures !r.Found? ==> customers == old(customers)
      ensures r.Nobody? <==> customer == "" || organization.None? || organization.value !in organizations
      ensures r.Clash? <==> !r.Nobody? && Laws.Conflicting(old(Now()), customer, organization.value)
      ensures r.Found? ==> organization == Some(r.organization) && Laws.Binds(old(customers), customers, customer, r.organization)
    {
      hide Laws.Conflicting, Laws.Binds;
      BindKeepsBindings(Now(), customer, organization);
      Laws.BindLaw(Now(), customer, organization);
      if customer == "" || organization.None? { return Nobody; }
      var org := organization.value;
      if org !in organizations { return Nobody; }
      var existing := CustomerFor(customer);
      if existing.Some? && existing.value != org { return Clash; }
      var row := BLANK;
      if existing.Some? {
        row := customers[existing.value];
      } else if org in customers {
        row := customers[org];
      }
      if row.customerId != "" && row.customerId != customer { return Clash; }
      row := row.(customerId := customer);
      row := row.(checkoutPending := false);
      customers := customers[org := row];
      return Found(org);
    }

    /** `_forget_customer`. */
    method ForgetCustomer(customer: string) returns (r: Reply)
      requires Valid()
      modifies this`customers
      ensures Valid()
      ensures forall event: Event, now: int | event.body == CustomerDeleted(customer) ::
                Dispatch(old(Now()), event, now) == if r.Found? then Outcome.Done(customers) else NoCustomer
      ensures !r.Found? ==> r.Nobody? && customers == old(customers)
      ensures r.Nobody? <==> forall org | org in old(customers) :: !BoundTo(old(customers), org, customer)
      ensures r.Found? ==>
                && BoundTo(old(customers), r.organization, customer) && r.organization in customers
                && Laws.Emptied(old(customers)[r.organization], customers[r.organization])
                && customers == old(customers)[r.organization := customers[r.organization]]
    {
      var org := CustomerFor(customer);
      if org.None? { return Nobody; }
      var row := customers[org.value];
      row := row.(subscriptionId := "");
      row := row.(status := STATUS_NONE);
      row := row.(cancelAtPeriodEnd := false);
      row := row.(periodEnd := None);
      RewriteKeepsBindings(customers, org.value, row);
      customers := customers[org.value := row];
      return Found(org.value);
    }

    /** `_apply_subscription`. */
    method ApplySubscription(event: Event, now: int) returns (r: Reply)
      requires Valid() && (event.body.SubscriptionSet? || event.body.SubscriptionDeleted?)
      modifies this`customers
      ensures Valid()
      ensures Dispatch(old(Now()), event, now) == if r.Found? then Outcome.Done(customers) else NoCustomer
      ensures !r.Found? ==> r.Nobody? && customers == old(customers)
      ensures r.Nobody? <==> forall org | org in old(customers) :: !BoundTo(old(customers), org, event.body.customer)
      ensures r.Found? ==>
                && BoundTo(old(customers), r.organization, event.body.customer) && r.organization in customers
                && Laws.AppliedTo(old(customers)[r.organization], customers[r.organization], event, now)
                && customers == old(customers)[r.organization := customers[r.organization]]
    {
      hide Laws.AppliedTo;
      var org := CustomerFor(event.body.customer);
      if org.None? { return Nobody; }
      var row := customers[org.value];
      Laws.AppliedLaw(row, event, now);
      if event.created.Some? && row.lastEventAt.Some? && event.created.value < row.lastEventAt.value {
        assert customers == customers[org.value := row];
        return Found(org.value);
      }
      row := WriteSubscription(row, event.body);
      row := row.(lastEventAt := if event.created.Some? then event.created else Some(now));
      RewriteKeepsBindings(customers, org.value, row);
      customers := customers[org.value := row];
      return Found(org.value);
    }

    /** `apply_snapshot`. */
    method ApplySnapshot(org: nat, subscription: Option<Subscription>)
      requires Valid() && org in customers
      modifies this`customers
      ensures Valid()
      ensures customers == old(customers)[org := Snapshot(old(customers[org]), subscription)]
      ensures Laws.ReadInto(old(customers[org]), customers[org], subscription)
    {
      hide Laws.ReadInto;
      Laws.SnapshotLaw(customers[org], subscription);
      var row := customers[org];
      if subscription.None? {
        row := row.(status := STATUS_NONE, subscriptionId := "", cancelAtPeriodEnd := false);
        row := row.(periodEnd := None, checkoutPending := false);
      } else {
        row := WriteSubscription(row, SubscriptionSet(row.customerId, subscription.value));
      }
      RewriteKeepsBindings(customers, org, row);
      customers := customers[org := row];
    }

    /** `handle`, cut short where `fault` says. */
    method HandleEvent(event: Event, now: int, fault: Fault)
      requires Valid()
      modifies this`customers, this`log
      ensures Valid() && Now() == Handle(old(Now()), event, now, fault)
      ensures Laws.Delivered(old(Now()), Now(), event, now, fault)
    {
      hide Laws.Delivered, Laws.Binds, Laws.AppliedTo, Laws.Emptied, Laws.Conflicting, OneOrgEach, OrgOf;
      Laws.DeliveryLaw(Now(), event, now, fault);
      var inserted := Claim(event.id, now);
      if !inserted && !Retryable(log[event.id], now) { return; }
      if fault.DiesBefore? { return; }
      if event.body.Unhandled? {
        Finish(event.id, Ignored);
        return;
      }
      if fault.Raises? {
        Finish(event.id, EventStatus.Failed);
        return;
      }
      ghost var claimed := Now();
      var reply;
      if event.body.CheckoutCompleted? {
        reply := BindCustomer(event.body.customer, event.body.organization);
      } else if event.body.CustomerDeleted? {
        reply := ForgetCustomer(event.body.customer);
      } else {
        reply := ApplySubscription(event, now);
      }
      assert Dispatch(claimed, event, now) ==
             match reply { case Found(_) => Outcome.Done(customers) case Nobody => NoCustomer case Clash => Conflict };
      if reply.Clash? {
        Finish(event.id, EventStatus.Failed);
      } else if !fault.DiesAfter? {
        Finish(event.id, if reply.Found? then Processed else Ignored);
      }
    }
  }

  /** `_write_subscription`, reading the items with `_price_id` and `_period_end`. */
  method WriteSubscription(row: Customer, body: Body) returns (r: Customer)
    requires body.SubscriptionSet? || body.SubscriptionDeleted?
    ensures r == Written(row, body)
    ensures Shows(r, body) && RestKept(row, r, body)
  {
    hide Shows;
    WrittenShows(row, body);
    r := row.(checkoutPending := false);
    if body.SubscriptionDeleted? {
      r := r.(status := "canceled", subscriptionId := "", cancelAtPeriodEnd := false);
      r := r.(periodEnd := None);
      return;
    }
    var s := body.subscription;
    r := r.(status := if s.status == "" then STATUS_NONE else s.status);
    r := r.(subscriptionId := s.id, cancelAtPeriodEnd := s.cancelAtPeriodEnd);
    var price := FirstPrice(s.items);
    var end := FirstPeriodEnd(s.items, s.periodEnd);
    r := r.(priceId := price, periodEnd := end);
  }

  /** `_price_id`. */
  method FirstPrice(items: seq<Item>) returns (price: string)
    ensures price == PriceId(items) && FirstNamed(items, price)
    ensures price == "" <==> forall k | 0 <= k < |items| :: items[k].priceId == ""
  {
    hide FirstNamed;
    FirstPriceIs(items);
    price := "";
    var k := 0;
    while k < |items| && price == ""
      invariant 0 <= k <= |items|
      invariant price == "" ==> PriceId(items) == PriceId(items[k..])
      invariant price != "" ==> price == PriceId(items) && exists j | 0 <= j < |items| :: items[j].priceId != ""
      invariant price == "" ==> forall j | 0 <= j < k :: items[j].priceId == ""
    {
      price := items[k].priceId;
      assert items[k..][0] == items[k] && items[k..][1..] == items[k + 1..];
      k := k + 1;
    }
  }

  /** `_period_end`. */
  method FirstPeriodEnd(items: seq<Item>, own: Option<int>) returns (end: Option<int>)
    ensures end == PeriodEnd(items, own) && FirstEnding(items, own, end)
    ensures (forall k | 0 <= k < |items| :: items[k].periodEnd.None?) ==> end == own
  {
    hide FirstEnding;
    FirstEndIs(items, own);
    var k := 0;
    while k < |items|
      invariant 0 <= k <= |items|
      invariant PeriodEnd(items, own) == PeriodEnd(items[k..], own)
    {
      assert items[k..][0] == items[k] && items[k..][1..] == items[k + 1..];
      if items[k].periodEnd.Some? { return items[k].periodEnd; }
      k := k + 1;
    }
    end := own;
  }
}
