/**
 What a billing delivery does to the rows and to the log, said of their columns: who is
 bound by a checkout, what each event leaves, and what an event is recorded as.
 */
module BillingLaws {
  import opened Queue
  import opened BillingEvents

  // ------------------------------------------------------------------ a checkout

  /** There is nobody to bind: no customer named, no organization, or not one of ours. */
  predicate NobodyToBind(s: State, customer: string, organization: Option<nat>) {
    customer == "" || organization.None? || organization.value !in s.organizations
  }

  /** The customer is bound to somebody else, or the organization to another customer. */
  ghost predicate Conflicting(s: State, customer: string, org: nat) {
    || (exists other :: other in s.customers && other != org && s.customers[other].customerId == customer)
    || (org in s.customers && s.customers[org].customerId != "" && s.customers[org].customerId != customer)
  }

  /** One organization is bound, its checkout is over, and no other column or row is touched. */
  ghost predicate Binds(before: map<nat, Customer>, after: map<nat, Customer>, customer: string, org: nat) {
    && after.Keys == before.Keys + {org}
    && BoundTo(after, org, customer) && !after[org].checkoutPending
    && (forall other | other in before && other != org :: after[other] == before[other])
    && var was := if org in before then before[org] else Customer("", "", "none", "", false, None, false, None);
       && after[org].subscriptionId == was.subscriptionId && after[org].status == was.status
       && after[org].priceId == was.priceId && after[org].cancelAtPeriodEnd == was.cancelAtPeriodEnd
       && after[org].periodEnd == was.periodEnd && after[org].lastEventAt == was.lastEventAt
  }

  lemma BindLaw(s: State, customer: string, organization: Option<nat>)
    requires OneOrgEach(s.customers)
    ensures var r := Bind(s, customer, organization);
            if NobodyToBind(s, customer, organization) then r == NoCustomer
            else if Conflicting(s, customer, organization.value) then r == Conflict
            else r.Done? && Binds(s.customers, r.customers, customer, organization.value)
  {
    if !NobodyToBind(s, customer, organization) {
      var org, holder := organization.value, OrgOf(s.customers, customer);
      assert forall other | other in s.customers :: BoundTo(s.customers, other, customer) <==> s.customers[other].customerId == customer;
      if holder.Some? { OnlyHolder(s.customers, holder.value, customer); }
    }
  }

  // ------------------------------------------------------------------ a subscription event

  /** The event is older than the last one applied to the row. */
  predicate OlderThanApplied(row: Customer, event: Event) {
    event.created.Some? && row.lastEventAt.Some? && event.created.value < row.lastEventAt.value
  }

  /** A bound row after a subscription event: as it was if the event is older, else as the event says, and dated. */
  ghost predicate AppliedTo(row: Customer, after: Customer, event: Event, now: int) {
    if OlderThanApplied(row, event) then after == row
    else && Shows(after, event.body) && RestKept(row, after, event.body)
         && after.lastEventAt == if event.created.Some? then event.created else Some(now)
  }

  lemma AppliedLaw(row: Customer, event: Event, now: int)
    requires event.body.SubscriptionSet? || event.body.SubscriptionDeleted?
    ensures AppliedTo(row, Applied(row, event, now), event, now)
  {
    hide Shows;
    WrittenShows(row, event.body);
    if !OlderThanApplied(row, event) {
      SameColumns(Written(row, event.body), Applied(row, event, now), event.body);
    }
  }

  // ------------------------------------------------------------------ a direct read, a deleted customer

  /** A row after a direct read: its subscription written, or none; the last event's date stays. */
  ghost predicate ReadInto(row: Customer, after: Customer, subscription: Option<Subscription>) {
    && after.customerId == row.customerId && !after.checkoutPending && after.lastEventAt == row.lastEventAt
    && match subscription
       case Some(s) => Shows(after, SubscriptionSet(row.customerId, s))
       case None =>
         && after.status == "none" && after.subscriptionId == "" && !after.cancelAtPeriodEnd && after.periodEnd.None?
         && after.priceId == row.priceId
  }

  lemma SnapshotLaw(row: Customer, subscription: Option<Subscription>)
    ensures ReadInto(row, Snapshot(row, subscription), subscription)
  {
    if subscription.Some? { WrittenShows(row, SubscriptionSet(row.customerId, subscription.value)); }
  }

  /** A deleted customer keeps its binding, its price and its dates, and has no subscription. */
  ghost predicate Emptied(row: Customer, after: Customer) {
    && after.status == "none" && after.subscriptionId == "" && !after.cancelAtPeriodEnd && after.periodEnd.None?
    && after.customerId == row.customerId && after.priceId == row.priceId
    && after.checkoutPending == row.checkoutPending && after.lastEventAt == row.lastEventAt
  }

  // ------------------------------------------------------------------ a delivery

  /** The event is recorded already, and not as one to be tried again: failed, or claimed over five minutes ago. */
  predicate RecordedForGood(s: State, id: nat, now: int) {
    id in s.log && !s.log[id].status.Failed? && !(s.log[id].status.Received? && now - s.log[id].receivedAt > 300)
  }

  /** Whom the event is about, as long as somebody is bound. */
  ghost predicate About(s: State, event: Event, org: nat) {
    !event.body.Unhandled? && !event.body.CheckoutCompleted? && BoundTo(s.customers, org, event.body.customer)
  }

  /** The event finds nobody. */
  ghost predicate FindsNobody(s: State, event: Event) {
    match event.body
    case CheckoutCompleted(customer, organization) => NobodyToBind(s, customer, organization)
    case _ => forall org | org in s.customers :: !About(s, event, org)
  }

  ghost predicate Clashes(s: State, event: Event) {
    event.body.CheckoutCompleted? && !FindsNobody(s, event) && Conflicting(s, event.body.customer, event.body.organization.value)
  }

  /** The rows after an event that is applied: those of one organization written, all others as they were. */
  ghost predicate RowsAfter(s: State, after: map<nat, Customer>, event: Event, now: int) {
    match event.body
    case CheckoutCompleted(customer, organization) => organization.Some? && Binds(s.customers, after, customer, organization.value)
    case Unhandled => false
    case _ =>
      && after.Keys == s.customers.Keys
      && forall org | org in s.customers ::
           if !About(s, event, org) then after[org] == s.customers[org]
           else if event.body.CustomerDeleted? then Emptied(s.customers[org], after[org])
           else AppliedTo(s.customers[org], after[org], event, now)
  }

  /** What the event is recorded as. */
  ghost function RecordedAs(s: State, event: Event, fault: Fault): EventStatus {
    var was := if event.id in s.log then s.log[event.id].status else Received;
    if fault.DiesBefore? then was
    else if event.body.Unhandled? then Ignored
    else if fault.Raises? || Clashes(s, event) then EventStatus.Failed
    else if fault.DiesAfter? then was
    else if FindsNobody(s, event) then Ignored
    else Processed
  }

  /** One delivery: nothing for an event recorded for good; else it is recorded, and its rows written if it gets that far. */
  ghost predicate Delivered(s: State, t: State, event: Event, now: int, fault: Fault) {
    if RecordedForGood(s, event.id, now) then t == s
    else
      && t.organizations == s.organizations
      && t.log == s.log[event.id := LogRow(RecordedAs(s, event, fault),
                                           if event.id in s.log then s.log[event.id].receivedAt else now)]
      && if fault.DiesBefore? || fault.Raises? || FindsNobody(s, event) || Clashes(s, event)
         then t.customers == s.customers else RowsAfter(s, t.customers, event, now)
  }

  lemma DispatchLaw(s: State, event: Event, now: int)
    requires OneOrgEach(s.customers) && !event.body.Unhandled?
    ensures var r := Dispatch(s, event, now);
            if FindsNobody(s, event) then r == NoCustomer
            else if Clashes(s, event) then r == Conflict
            else r.Done? && RowsAfter(s, r.customers, event, now)
  {
    hide Binds, AppliedTo, Conflicting, Bind, Applied, OneOrgEach;
    if event.body.CheckoutCompleted? {
      BindLaw(s, event.body.customer, event.body.organization);
    } else {
      HolderLaw(s, event, now);
    }
  }

  lemma HolderLaw(s: State, event: Event, now: int)
    requires OneOrgEach(s.customers) && !event.body.Unhandled? && !event.body.CheckoutCompleted?
    ensures var r := Dispatch(s, event, now);
            if FindsNobody(s, event) then r == NoCustomer else r.Done? && RowsAfter(s, r.customers, event, now)
  {
    hide AppliedTo, Applied, OneOrgEach;
    var org := OrgOf(s.customers, event.body.customer);
    if org.Some? {
      assert About(s, event, org.value);
      OnlyHolder(s.customers, org.value, event.body.customer);
      if !event.body.CustomerDeleted? { AppliedLaw(s.customers[org.value], event, now); }
    }
  }

  lemma OnlyHolder(customers: map<nat, Customer>, org: nat, customer: string)
    requires OneOrgEach(customers) && BoundTo(customers, org, customer)
    ensures forall other | other in customers && BoundTo(customers, other, customer) :: other == org
  {
  }

  lemma DeliveryLaw(s: State, event: Event, now: int, fault: Fault)
    requires OneOrgEach(s.customers)
    ensures Delivered(s, Handle(s, event, now, fault), event, now, fault)
  {
    hide Dispatch, FindsNobody, Conflicting, RowsAfter, OneOrgEach;
    if !RecordedForGood(s, event.id, now) {
      var claimed := if event.id in s.log then s else s.(log := s.log[event.id := LogRow(Received, now)]);
      SameRows(s, claimed, event, now);
      if event.body.Unhandled? {
        UnhandledFindsNobody(s, event);
      } else {
        DispatchLaw(claimed, event, now);
      }
      var t := Handle(s, event, now, fault);
      assert t.log == s.log[event.id := LogRow(RecordedAs(s, event, fault),
                                               if event.id in s.log then s.log[event.id].receivedAt else now)];
    }
  }

  /** What an event finds and does depends on the rows and the organizations alone. */
  lemma SameRows(s: State, t: State, event: Event, now: int)
    requires s.customers == t.customers && s.organizations == t.organizations
    ensures FindsNobody(s, event) == FindsNobody(t, event) && Clashes(s, event) == Clashes(t, event)
    ensures forall after: map<nat, Customer> :: RowsAfter(s, after, event, now) == RowsAfter(t, after, event, now)
  {
  }

  lemma UnhandledFindsNobody(s: State, event: Event)
    requires event.body.Unhandled?
    ensures FindsNobody(s, event) && !Clashes(s, event)
  {
  }

  // ------------------------------------------------------------------ a checkout, then the subscription

  /**
   Once a checkout has been processed its customer's events reach the organization that
   checked out: after any further deliveries, an event of the customer that is delivered for
   the first time is processed and applied to that organization's row.
   */
  lemma EventsFollowTheCheckout(
    s: State, checkout: Delivery, customer: string, org: nat, later: seq<Delivery>, event: Event, now: int)
    requires OneOrgEach(s.customers) && checkout.event.body == CheckoutCompleted(customer, Some(org))
    requires !Settled(s.log, checkout.event.id)
    requires var t := Handle(s, checkout.event, checkout.now, checkout.fault);
             checkout.event.id in t.log && t.log[checkout.event.id].status.Processed?
    requires ForCustomer(event, customer)
    requires event.id !in HandleAll(Handle(s, checkout.event, checkout.now, checkout.fault), later).log
    ensures var u := HandleAll(Handle(s, checkout.event, checkout.now, checkout.fault), later);
            var v := Handle(u, event, now, NoFault);
            && BoundTo(u.customers, org, customer) && BoundTo(v.customers, org, customer)
            && AppliedTo(u.customers[org], v.customers[org], event, now)
            && v.log == u.log[event.id := LogRow(Processed, now)]
  {
    hide HandleAll, Handle, Shows, OneOrgEach;
    var t := Handle(s, checkout.event, checkout.now, checkout.fault);
    DeliveryLaw(s, checkout.event, checkout.now, checkout.fault);
    DeliveryKeepsBindings(s, checkout.event, checkout.now, checkout.fault);
    assert BoundTo(t.customers, org, customer);
    BindingNeverMoves(t, later);
    var u := HandleAll(t, later);
    DeliveryLaw(u, event, now, NoFault);
    assert About(u, event, org);
  }
}
