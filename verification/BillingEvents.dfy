/**
 What each billing event does to a customer row (apps/billing/events.py), with
 deliveries that are duplicated, reordered, cut short or failing.
 */
module BillingEvents {
  import opened Queue

  /** One item of a subscription. */
  datatype Item = Item(priceId: string, periodEnd: Option<int>)

  datatype Subscription = Subscription(
    id: string, status: string, cancelAtPeriodEnd: bool, items: seq<Item>, periodEnd: Option<int>)

  datatype Body =
    | SubscriptionSet(customer: string, subscription: Subscription)
    | SubscriptionDeleted(customer: string)
    | CheckoutCompleted(customer: string, organization: Option<nat>)
    | CustomerDeleted(customer: string)
    | Unhandled

  datatype Event = Event(id: nat, created: Option<int>, body: Body)

  /** A `BillingCustomer`; the empty customer id means not bound yet. */
  datatype Customer = Customer(
    customerId: string, subscriptionId: string, status: string, priceId: string, cancelAtPeriodEnd: bool,
    periodEnd: Option<int>, checkoutPending: bool, lastEventAt: Option<int>)

  datatype EventStatus = Received | Processed | Ignored | Failed

  datatype LogRow = LogRow(status: EventStatus, receivedAt: int)

  datatype State = State(customers: map<nat, Customer>, log: map<nat, LogRow>, organizations: set<nat>)

  const STATUS_NONE := "none"
  const STALE_RECEIVED := 300

  // ------------------------------------------------------------------ writing a subscription

  /** `_price_id`: the first item that names a price. */
  function PriceId(items: seq<Item>): string {
    if items == [] then "" else if items[0].priceId != "" then items[0].priceId else PriceId(items[1..])
  }

  /** `_period_end`: the first item that has one, then the subscription's own. */
  function PeriodEnd(items: seq<Item>, own: Option<int>): Option<int> {
    if items == [] then own else if items[0].periodEnd.Some? then items[0].periodEnd else PeriodEnd(items[1..], own)
  }

  /** `_write_subscription`. A deletion leaves the price where it was. */
  function Written(row: Customer, body: Body): Customer
    requires body.SubscriptionSet? || body.SubscriptionDeleted?
  {
    match body
    case SubscriptionDeleted(_) =>
      row.(checkoutPending := false, status := "canceled", subscriptionId := "", cancelAtPeriodEnd := false, periodEnd := None)
    case SubscriptionSet(_, s) =>
      row.(checkoutPending := false, status := if s.status == "" then STATUS_NONE else s.status, subscriptionId := s.id,
           cancelAtPeriodEnd := s.cancelAtPeriodEnd, priceId := PriceId(s.items),
           periodEnd := PeriodEnd(s.items, s.periodEnd))
  }

  /** The price is the first that any item names. */
  ghost predicate FirstNamed(items: seq<Item>, price: string) {
    || (price == "" && forall k | 0 <= k < |items| :: items[k].priceId == "")
    || (price != "" && exists k :: 0 <= k < |items| && items[k].priceId == price
                                   && forall j | 0 <= j < k :: items[j].priceId == "")
  }

  /** The end is the first that any item has, and the subscription's own when none has. */
  ghost predicate FirstEnding(items: seq<Item>, own: Option<int>, end: Option<int>) {
    || (end == own && forall k | 0 <= k < |items| :: items[k].periodEnd.None?)
    || (exists k :: 0 <= k < |items| && items[k].periodEnd.Some? && items[k].periodEnd == end
                    && forall j | 0 <= j < k :: items[j].periodEnd.None?)
  }

  /** The columns of a row that a subscription event has been written to. */
  ghost predicate Shows(row: Customer, body: Body) {
    match body
    case SubscriptionDeleted(_) =>
      row.status == "canceled" && row.subscriptionId == "" && !row.cancelAtPeriodEnd && row.periodEnd.None?
    case SubscriptionSet(_, s) =>
      && row.status == (if s.status == "" then "none" else s.status)
      && row.subscriptionId == s.id && row.cancelAtPeriodEnd == s.cancelAtPeriodEnd
      && FirstNamed(s.items, row.priceId) && FirstEnding(s.items, s.periodEnd, row.periodEnd)
    case _ => false
  }

  /** Nothing else of the row is written, and a deletion leaves the price. */
  predicate RestKept(row: Customer, after: Customer, body: Body) {
    && after.customerId == row.customerId && !after.checkoutPending
    && (body.SubscriptionDeleted? ==> after.priceId == row.priceId)
  }

  lemma {:induction false} FirstPriceIs(items: seq<Item>)
    ensures FirstNamed(items, PriceId(items))
  {
    if items != [] {
      FirstPriceIs(items[1..]);
      assert forall k | 0 < k < |items| :: items[k] == items[1..][k - 1];
      if items[0].priceId == "" && PriceId(items) != "" {
        var k :| 0 <= k < |items[1..]| && items[1..][k].priceId == PriceId(items)
                 && forall j | 0 <= j < k :: items[1..][j].priceId == "";
        assert items[k + 1].priceId == PriceId(items);
      }
    }
  }

  lemma {:induction false} FirstEndIs(items: seq<Item>, own: Option<int>)
    ensures FirstEnding(items, own, PeriodEnd(items, own))
  {
    if items != [] && items[0].periodEnd.None? {
      FirstEndIs(items[1..], own);
      assert forall k | 0 < k < |items| :: items[k] == items[1..][k - 1];
      if k :| 0 <= k < |items[1..]| && items[1..][k].periodEnd.Some? && items[1..][k].periodEnd == PeriodEnd(items, own)
              && forall j | 0 <= j < k :: items[1..][j].periodEnd.None? {
        assert items[k + 1].periodEnd == PeriodEnd(items, own);
      }
    }
  }

  lemma WrittenShows(row: Customer, body: Body)
    requires body.SubscriptionSet? || body.SubscriptionDeleted?
    ensures Shows(Written(row, body), body) && RestKept(row, Written(row, body), body)
    ensures Written(row, body).lastEventAt == row.lastEventAt
  {
    if body.SubscriptionSet? {
      FirstPriceIs(body.subscription.items);
      FirstEndIs(body.subscription.items, body.subscription.periodEnd);
    }
  }

  // ------------------------------------------------------------------ dispatch

  /** `_customer_for`: the organization bound to a customer id. */
  predicate BoundTo(customers: map<nat, Customer>, org: nat, customerId: string) {
    customerId != "" && org in customers && customers[org].customerId == customerId
  }

  /** `customers[org]` if bound to the id; `None` when nobody is. */
  ghost function OrgOf(customers: map<nat, Customer>, customerId: string): (r: Option<nat>)
    ensures r.Some? ==> BoundTo(customers, r.value, customerId)
    ensures r.None? ==> forall org | org in customers :: !BoundTo(customers, org, customerId)
  {
    if org :| BoundTo(customers, org, customerId) then Some(org) else None
  }

  /** What a dispatch comes to: the rows it leaves, whether it found a customer, whether it raised. */
  datatype Outcome = Done(customers: map<nat, Customer>) | NoCustomer | Conflict

  /** `_apply_subscription`: unless the event is older than the last one applied. */
  function Applied(row: Customer, event: Event, now: int): Customer
    requires event.body.SubscriptionSet? || event.body.SubscriptionDeleted?
  {
    if event.created.Some? && row.lastEventAt.Some? && event.created.value < row.lastEventAt.value then row
    else Written(row, event.body).(lastEventAt := if event.created.Some? then event.created else Some(now))
  }

  const BLANK := Customer("", "", STATUS_NONE, "", false, None, false, None)

  /** `_bind_customer`. */
  ghost function Bind(s: State, customer: string, organization: Option<nat>): Outcome {
    if customer == "" || organization.None? || organization.value !in s.organizations then NoCustomer
    else
      var org := organization.value;
      var holder := OrgOf(s.customers, customer);
      if holder.Some? && holder.value != org then Conflict
      else if org in s.customers && s.customers[org].customerId != "" && s.customers[org].customerId != customer then Conflict
      else
        var row := if org in s.customers then s.customers[org] else BLANK;
        Outcome.Done(s.customers[org := row.(customerId := customer, checkoutPending := false)])
  }

  /** `_forget_customer`. */
  function Forgotten(row: Customer): Customer {
    row.(subscriptionId := "", status := STATUS_NONE, cancelAtPeriodEnd := false, periodEnd := None)
  }

  /** `_dispatch`. */
  ghost function Dispatch(s: State, event: Event, now: int): Outcome {
    match event.body
    case CheckoutCompleted(customer, organization) => Bind(s, customer, organization)
    case CustomerDeleted(customer) =>
      var org := OrgOf(s.customers, customer);
      if org.None? then NoCustomer
      else Outcome.Done(s.customers[org.value := Forgotten(s.customers[org.value])])
    case SubscriptionSet(customer, _) =>
      var org := OrgOf(s.customers, customer);
      if org.None? then NoCustomer else Outcome.Done(s.customers[org.value := Applied(s.customers[org.value], event, now)])
    case SubscriptionDeleted(customer) =>
      var org := OrgOf(s.customers, customer);
      if org.None? then NoCustomer else Outcome.Done(s.customers[org.value := Applied(s.customers[org.value], event, now)])
    case Unhandled => NoCustomer
  }

  // ------------------------------------------------------------------ one delivery

  /** Where a delivery is cut short: before its dispatch, inside it, or after its write and before its finish. */
  datatype Fault = NoFault | DiesBefore | Raises | DiesAfter

  /** `_is_retryable`. */
  predicate Retryable(row: LogRow, now: int) {
    row.status.Failed? || (row.status.Received? && now - row.receivedAt > STALE_RECEIVED)
  }

  function Logged(s: State, id: nat, status: EventStatus): State
    requires id in s.log
  {
    s.(log := s.log[id := s.log[id].(status := status)])
  }

  /** `handle` for one delivery of one event. */
  ghost function Handle(s: State, event: Event, now: int, fault: Fault): State {
    if event.id in s.log && !Retryable(s.log[event.id], now) then s
    else
      var claimed := if event.id in s.log then s else s.(log := s.log[event.id := LogRow(Received, now)]);
      if fault.DiesBefore? then claimed
      else if event.body.Unhandled? then Logged(claimed, event.id, Ignored)
      else if fault.Raises? then Logged(claimed, event.id, EventStatus.Failed)
      else
        match Dispatch(claimed, event, now)
        case NoCustomer => if fault.DiesAfter? then claimed else Logged(claimed, event.id, Ignored)
        case Conflict => Logged(claimed, event.id, EventStatus.Failed)
        case Done(customers) =>
          var written := claimed.(customers := customers);
          if fault.DiesAfter? then written else Logged(written, event.id, Processed)
  }

  datatype Delivery = Delivery(event: Event, now: int, fault: Fault)

  ghost function HandleAll(s: State, deliveries: seq<Delivery>): State
    decreases |deliveries|
  {
    if deliveries == [] then s
    else
      var last := deliveries[|deliveries| - 1];
      Handle(HandleAll(s, deliveries[..|deliveries| - 1]), last.event, last.now, last.fault)
  }

  // ------------------------------------------------------------------ binding

  /** Two organizations never share a customer. */
  ghost predicate OneOrgEach(customers: map<nat, Customer>) {
    forall a, b | a in customers && b in customers && customers[a].customerId != "" && customers[a].customerId == customers[b].customerId :: a == b
  }

  /** A binding, once made, is what it was. */
  ghost predicate BindingsStand(before: map<nat, Customer>, after: map<nat, Customer>) {
    forall org | org in before && before[org].customerId != "" ::
      org in after && after[org].customerId == before[org].customerId
  }

  lemma RewriteKeepsBindings(customers: map<nat, Customer>, org: nat, row: Customer)
    requires OneOrgEach(customers) && org in customers && row.customerId == customers[org].customerId
    ensures OneOrgEach(customers[org := row]) && BindingsStand(customers, customers[org := row])
  {
  }

  lemma BindKeepsBindings(s: State, customer: string, organization: Option<nat>)
    requires OneOrgEach(s.customers)
    ensures var r := Bind(s, customer, organization);
            r.Done? ==> OneOrgEach(r.customers) && BindingsStand(s.customers, r.customers)
  {
  }

  lemma DispatchKeepsBindings(s: State, event: Event, now: int)
    requires OneOrgEach(s.customers)
    ensures var r := Dispatch(s, event, now);
            r.Done? ==> OneOrgEach(r.customers) && BindingsStand(s.customers, r.customers)
  {
    match event.body
    case CheckoutCompleted(customer, organization) => BindKeepsBindings(s, customer, organization);
    case Unhandled =>
    case SubscriptionSet(customer, _) =>
      var org := OrgOf(s.customers, customer);
      if org.Some? { RewriteKeepsBindings(s.customers, org.value, Applied(s.customers[org.value], event, now)); }
    case SubscriptionDeleted(customer) =>
      var org := OrgOf(s.customers, customer);
      if org.Some? { RewriteKeepsBindings(s.customers, org.value, Applied(s.customers[org.value], event, now)); }
    case CustomerDeleted(customer) =>
      var org := OrgOf(s.customers, customer);
      if org.Some? { RewriteKeepsBindings(s.customers, org.value, Forgotten(s.customers[org.value])); }
  }

  lemma DeliveryKeepsBindings(s: State, event: Event, now: int, fault: Fault)
    requires OneOrgEach(s.customers)
    ensures OneOrgEach(Handle(s, event, now, fault).customers)
    ensures BindingsStand(s.customers, Handle(s, event, now, fault).customers)
  {
    hide Dispatch, OneOrgEach;
    var claimed := if event.id in s.log then s else s.(log := s.log[event.id := LogRow(Received, now)]);
    DispatchKeepsBindings(claimed, event, now);
  }

  /** No sequence of events, however delivered, moves a customer between organizations or binds it twice. */
  lemma {:induction false} BindingNeverMoves(s: State, deliveries: seq<Delivery>)
    requires OneOrgEach(s.customers)
    ensures OneOrgEach(HandleAll(s, deliveries).customers)
    ensures BindingsStand(s.customers, HandleAll(s, deliveries).customers)
    decreases |deliveries|
  {
    if deliveries != [] {
      var front, last := deliveries[..|deliveries| - 1], deliveries[|deliveries| - 1];
      BindingNeverMoves(s, front);
      DeliveryKeepsBindings(HandleAll(s, front), last.event, last.now, last.fault);
    }
  }

  // ------------------------------------------------------------------ convergence

  /** The columns the newest event decides. A deletion leaves the price alone, so it is not one of them. */
  datatype Standing = Standing(status: string, subscriptionId: string, cancelAtPeriodEnd: bool, periodEnd: Option<int>)

  function StandingOf(row: Customer): Standing {
    Standing(row.status, row.subscriptionId, row.cancelAtPeriodEnd, row.periodEnd)
  }

  predicate ForCustomer(event: Event, customer: string) {
    && (event.body.SubscriptionSet? || event.body.SubscriptionDeleted?)
    && event.body.customer == customer
  }

  /** What an event alone says. */
  function Says(event: Event): Standing
    requires event.body.SubscriptionSet? || event.body.SubscriptionDeleted?
  {
    StandingOf(Written(BLANK, event.body))
  }

  /**
   The deliveries the result is about: dated subscription events of one customer, with
   one id and one timestamp each, beside any events of other customers, and checkouts.
   */
  ghost predicate Dated(deliveries: seq<Delivery>, customer: string) {
    && (forall i | 0 <= i < |deliveries| ::
          && (ForCustomer(deliveries[i].event, customer) ==> deliveries[i].event.created.Some?)
          && !(deliveries[i].event.body.CustomerDeleted? && deliveries[i].event.body.customer == customer))
    && (forall i, j | 0 <= i < |deliveries| && 0 <= j < |deliveries|
                      && (ForCustomer(deliveries[i].event, customer) || ForCustomer(deliveries[j].event, customer))
                      && deliveries[i].event.id == deliveries[j].event.id :: deliveries[i].event == deliveries[j].event)
    && (forall i, j | 0 <= i < |deliveries| && 0 <= j < |deliveries|
                      && ForCustomer(deliveries[i].event, customer) && ForCustomer(deliveries[j].event, customer)
                      && deliveries[i].event.created == deliveries[j].event.created :: deliveries[i].event == deliveries[j].event)
  }

  ghost predicate PutBy(row: Customer, event: Event, customer: string) {
    && ForCustomer(event, customer) && row.lastEventAt == event.created
    && StandingOf(row) == Says(event) && Shows(row, event.body)
  }

  /** The event was handled and will not be run again. */
  predicate Settled(log: map<nat, LogRow>, id: nat) {
    id in log && (log[id].status.Processed? || log[id].status.Ignored?)
  }

  ghost predicate NoNewerThan(event: Event, at: Option<int>) {
    event.created.Some? && at.Some? && event.created.value <= at.value
  }

  /** Every settled event of the customer is no newer than the row. */
  ghost predicate CaughtUp(t: State, at: Option<int>, deliveries: seq<Delivery>, customer: string) {
    forall i | 0 <= i < |deliveries| && ForCustomer(deliveries[i].event, customer) && Settled(t.log, deliveries[i].event.id) ::
      NoNewerThan(deliveries[i].event, at)
  }

  /** The row is where it started, every settled event being older; or it is where some event put it. */
  ghost predicate StandsBy(t: State, start: Customer, row: Customer, deliveries: seq<Delivery>, customer: string) {
    || (row.lastEventAt == start.lastEventAt && StandingOf(row) == StandingOf(start) && row.priceId == start.priceId
        && forall i | 0 <= i < |deliveries| && ForCustomer(deliveries[i].event, customer) && Settled(t.log, deliveries[i].event.id) ::
             NoNewerThan(deliveries[i].event, start.lastEventAt) && deliveries[i].event.created != start.lastEventAt)
    || (exists i :: 0 <= i < |deliveries| && PutBy(row, deliveries[i].event, customer))
  }

  /** Every id in the log was there from the start or was delivered. */
  ghost predicate LoggedOnDelivery(s: State, t: State, deliveries: seq<Delivery>) {
    forall id | id in t.log && id !in s.log :: exists i :: 0 <= i < |deliveries| && deliveries[i].event.id == id
  }

  ghost predicate Tracks(s: State, t: State, org: nat, deliveries: seq<Delivery>, customer: string)
    requires org in s.customers
  {
    && OneOrgEach(t.customers) && BoundTo(t.customers, org, customer)
    && StandsBy(t, s.customers[org], t.customers[org], deliveries, customer)
    && CaughtUp(t, t.customers[org].lastEventAt, deliveries, customer)
    && (s.customers[org].lastEventAt.Some? ==>
          t.customers[org].lastEventAt.Some? && s.customers[org].lastEventAt.value <= t.customers[org].lastEventAt.value)
    && LoggedOnDelivery(s, t, deliveries)
  }

  /** None of the customer's events had been claimed before the first delivery. */
  ghost predicate Unclaimed(s: State, deliveries: seq<Delivery>, customer: string) {
    forall i | 0 <= i < |deliveries| && ForCustomer(deliveries[i].event, customer) :: deliveries[i].event.id !in s.log
  }

  /** One delivery of the customer's own event: settled by applying it, and a no-op once settled. */
  lemma OwnDelivery(t: State, org: nat, customer: string, event: Event, now: int, fault: Fault)
    requires OneOrgEach(t.customers) && BoundTo(t.customers, org, customer)
    requires ForCustomer(event, customer)
    ensures var u := Handle(t, event, now, fault);
            && BoundTo(u.customers, org, customer)
            && (u.customers[org] == t.customers[org] || u.customers[org] == Applied(t.customers[org], event, now))
            && (Settled(t.log, event.id) ==> u == t)
            && (Settled(u.log, event.id) && !Settled(t.log, event.id) ==>
                  u.customers[org] == Applied(t.customers[org], event, now))
            && LogElsewhere(t, u, event.id)
  {
    assert OrgOf(t.customers, customer) == Some(org);
  }

  /** The two logs differ at most at one id. */
  ghost predicate LogElsewhere(t: State, u: State, id: nat) {
    forall other | other != id :: (other in u.log <==> other in t.log) && (other in t.log ==> u.log[other] == t.log[other])
  }

  /** A delivery about anybody else leaves this row's standing and date alone. */
  lemma OtherDelivery(t: State, org: nat, customer: string, event: Event, now: int, fault: Fault)
    requires OneOrgEach(t.customers) && BoundTo(t.customers, org, customer)
    requires !ForCustomer(event, customer) && !(event.body.CustomerDeleted? && event.body.customer == customer)
    ensures var u := Handle(t, event, now, fault);
            && BoundTo(u.customers, org, customer)
            && StandingOf(u.customers[org]) == StandingOf(t.customers[org])
            && u.customers[org].lastEventAt == t.customers[org].lastEventAt
            && u.customers[org].priceId == t.customers[org].priceId
            && LogElsewhere(t, u, event.id)
  {
  }

  ghost predicate Seen(deliveries: seq<Delivery>, event: Event) {
    exists j :: 0 <= j < |deliveries| && deliveries[j].event == event
  }

  /** What a delivery of the row's own event may do to the row and the log. */
  ghost predicate OwnStep(t: State, u: State, row: Customer, next: Customer, deliveries: seq<Delivery>, last: Delivery)
    requires last.event.body.SubscriptionSet? || last.event.body.SubscriptionDeleted?
  {
    && (next == row || next == Applied(row, last.event, last.now))
    && (Settled(t.log, last.event.id) ==> Seen(deliveries, last.event) && u == t && next == row)
    && (Settled(u.log, last.event.id) && !Settled(t.log, last.event.id) ==> next == Applied(row, last.event, last.now))
    && LogElsewhere(t, u, last.event.id)
  }

  /** An event that is settled before this delivery has been delivered before it. */
  lemma SettledWasSeen(s: State, t: State, deliveries: seq<Delivery>, customer: string, last: Delivery)
    requires LoggedOnDelivery(s, t, deliveries) && Settled(t.log, last.event.id)
    requires Dated(deliveries + [last], customer) && Unclaimed(s, deliveries + [last], customer)
    requires ForCustomer(last.event, customer)
    ensures Seen(deliveries, last.event)
  {
    var all := deliveries + [last];
    assert all[|deliveries|] == last;
    var j :| 0 <= j < |deliveries| && deliveries[j].event.id == last.event.id;
    assert all[j].event == last.event;
  }

  lemma OwnCatchesUp(
    t: State, u: State, row: Customer, next: Customer, deliveries: seq<Delivery>, customer: string, last: Delivery)
    requires ForCustomer(last.event, customer) && OwnStep(t, u, row, next, deliveries, last)
    requires Dated(deliveries + [last], customer) && CaughtUp(t, row.lastEventAt, deliveries, customer)
    ensures CaughtUp(u, next.lastEventAt, deliveries + [last], customer)
  {
    var all := deliveries + [last];
    assert all[|deliveries|] == last;
    forall i | 0 <= i < |all| && ForCustomer(all[i].event, customer) && Settled(u.log, all[i].event.id)
      ensures NoNewerThan(all[i].event, next.lastEventAt)
    {
      if all[i].event.id == last.event.id {
        assert all[i].event == last.event;
      } else {
        assert all[i] == deliveries[i];
      }
    }
  }

  lemma OwnStandsBy(
    t: State, u: State, start: Customer, row: Customer, next: Customer, deliveries: seq<Delivery>, customer: string,
    last: Delivery)
    requires ForCustomer(last.event, customer) && OwnStep(t, u, row, next, deliveries, last)
    requires Dated(deliveries + [last], customer) && StandsBy(t, start, row, deliveries, customer)
    ensures StandsBy(u, start, next, deliveries + [last], customer)
  {
    var all := deliveries + [last];
    assert all[|deliveries|] == last;
    var stale := row.lastEventAt.Some? && last.event.created.value < row.lastEventAt.value;
    if next == Applied(row, last.event, last.now) && !stale {
      WrittenShows(row, last.event.body);
      SaysIsWritten(row, last.event);
      assert PutBy(next, all[|deliveries|].event, customer);
    } else if i :| 0 <= i < |deliveries| && PutBy(row, deliveries[i].event, customer) {
      assert PutBy(next, all[i].event, customer);
    } else {
      forall i | 0 <= i < |all| && ForCustomer(all[i].event, customer) && Settled(u.log, all[i].event.id)
        ensures NoNewerThan(all[i].event, start.lastEventAt) && all[i].event.created != start.lastEventAt
      {
        if all[i].event.id == last.event.id {
          assert all[i].event == last.event;
        } else {
          assert all[i] == deliveries[i];
        }
      }
    }
  }

  lemma TrackOwn(s: State, t: State, u: State, org: nat, deliveries: seq<Delivery>, customer: string, last: Delivery)
    requires org in s.customers && Tracks(s, t, org, deliveries, customer)
    requires Dated(deliveries + [last], customer) && Unclaimed(s, deliveries + [last], customer)
    requires ForCustomer(last.event, customer) && u == Handle(t, last.event, last.now, last.fault)
    ensures Tracks(s, u, org, deliveries + [last], customer)
  {
    hide Handle, Settled, OneOrgEach, CaughtUp, StandsBy, LoggedOnDelivery, LogElsewhere, Seen, Unclaimed;
    OwnDelivery(t, org, customer, last.event, last.now, last.fault);
    DeliveryKeepsBindings(t, last.event, last.now, last.fault);
    if Settled(t.log, last.event.id) { SettledWasSeen(s, t, deliveries, customer, last); }
    var start, row, next := s.customers[org], t.customers[org], u.customers[org];
    assert (deliveries + [last])[|deliveries|] == last;
    assert last.event.created.Some?;
    OwnCatchesUp(t, u, row, next, deliveries, customer, last);
    OwnStandsBy(t, u, start, row, next, deliveries, customer, last);
    AllLogged(s, t, u, deliveries, last);
  }

  lemma AllLogged(s: State, t: State, u: State, deliveries: seq<Delivery>, last: Delivery)
    requires LoggedOnDelivery(s, t, deliveries) && LogElsewhere(t, u, last.event.id)
    ensures LoggedOnDelivery(s, u, deliveries + [last])
  {
    var all := deliveries + [last];
    forall id | id in u.log && id !in s.log ensures exists i :: 0 <= i < |all| && all[i].event.id == id {
      if id == last.event.id {
        assert all[|deliveries|].event.id == id;
      } else {
        var i :| 0 <= i < |deliveries| && deliveries[i].event.id == id;
        assert all[i].event.id == id;
      }
    }
  }

  lemma SaysIsWritten(row: Customer, event: Event)
    requires event.body.SubscriptionSet? || event.body.SubscriptionDeleted?
    ensures StandingOf(Written(row, event.body)) == Says(event)
  {
  }

  lemma SameColumns(row: Customer, next: Customer, body: Body)
    requires StandingOf(row) == StandingOf(next) && row.priceId == next.priceId && Shows(row, body)
    ensures Shows(next, body)
  {
    hide FirstNamed, FirstEnding;
  }

  /** A delivery about anybody else is none of the customer's events. */
  lemma OthersAreOld(deliveries: seq<Delivery>, customer: string, last: Delivery)
    requires Dated(deliveries + [last], customer) && !ForCustomer(last.event, customer)
    ensures forall i | 0 <= i < |deliveries + [last]| && ForCustomer((deliveries + [last])[i].event, customer) ::
              i < |deliveries| && deliveries[i].event.id != last.event.id
  {
    var all := deliveries + [last];
    assert all[|deliveries|] == last;
    forall i | 0 <= i < |all| && ForCustomer(all[i].event, customer)
      ensures i < |deliveries| && deliveries[i].event.id != last.event.id
    {
      assert all[i].event != last.event;
      assert i != |deliveries|;
    }
  }

  lemma TrackOther(s: State, t: State, u: State, org: nat, deliveries: seq<Delivery>, customer: string, last: Delivery)
    requires org in s.customers && Tracks(s, t, org, deliveries, customer)
    requires Dated(deliveries + [last], customer)
    requires !ForCustomer(last.event, customer) && u == Handle(t, last.event, last.now, last.fault)
    ensures Tracks(s, u, org, deliveries + [last], customer)
  {
    hide Handle, Settled, OneOrgEach, LoggedOnDelivery, ForCustomer;
    var all := deliveries + [last];
    assert all[|deliveries|] == last;
    OtherDelivery(t, org, customer, last.event, last.now, last.fault);
    DeliveryKeepsBindings(t, last.event, last.now, last.fault);
    OthersAreOld(deliveries, customer, last);
    AllLogged(s, t, u, deliveries, last);
    OtherStandsBy(t, u, s.customers[org], t.customers[org], u.customers[org], deliveries, customer, last);
  }

  lemma OtherStandsBy(
    t: State, u: State, start: Customer, row: Customer, next: Customer, deliveries: seq<Delivery>, customer: string,
    last: Delivery)
    requires Dated(deliveries + [last], customer) && !ForCustomer(last.event, customer)
    requires LogElsewhere(t, u, last.event.id) && StandingOf(next) == StandingOf(row)
    requires next.lastEventAt == row.lastEventAt && next.priceId == row.priceId
    requires StandsBy(t, start, row, deliveries, customer) && CaughtUp(t, row.lastEventAt, deliveries, customer)
    ensures StandsBy(u, start, next, deliveries + [last], customer)
    ensures CaughtUp(u, next.lastEventAt, deliveries + [last], customer)
  {
    OthersAreOld(deliveries, customer, last);
    hide Dated, ForCustomer;
    var all := deliveries + [last];
    if i :| 0 <= i < |deliveries| && PutBy(row, deliveries[i].event, customer) {
      SameColumns(row, next, deliveries[i].event.body);
      assert PutBy(next, all[i].event, customer);
    }
  }

  lemma {:induction false} TracksAll(s: State, org: nat, deliveries: seq<Delivery>, customer: string)
    requires OneOrgEach(s.customers) && BoundTo(s.customers, org, customer)
    requires Dated(deliveries, customer) && Unclaimed(s, deliveries, customer)
    ensures Tracks(s, HandleAll(s, deliveries), org, deliveries, customer)
    decreases |deliveries|
  {
    if deliveries != [] {
      var front, last := deliveries[..|deliveries| - 1], deliveries[|deliveries| - 1];
      assert deliveries == front + [last];
      assert forall i | 0 <= i < |front| :: front[i] == deliveries[i];
      TracksAll(s, org, front, customer);
      var t := HandleAll(s, front);
      if ForCustomer(last.event, customer) {
        TrackOwn(s, t, Handle(t, last.event, last.now, last.fault), org, front, customer, last);
      } else {
        TrackOther(s, t, Handle(t, last.event, last.now, last.fault), org, front, customer, last);
      }
    }
  }

  lemma Converged(s: State, t: State, org: nat, deliveries: seq<Delivery>, customer: string, newest: nat)
    requires org in s.customers && Tracks(s, t, org, deliveries, customer) && Dated(deliveries, customer)
    requires newest < |deliveries| && ForCustomer(deliveries[newest].event, customer)
    requires forall i | 0 <= i < |deliveries| && ForCustomer(deliveries[i].event, customer) ::
               && Settled(t.log, deliveries[i].event.id)
               && NoNewerThan(deliveries[i].event, deliveries[newest].event.created)
    ensures var start, event := s.customers[org], deliveries[newest].event;
            if start.lastEventAt.Some? && event.created.value < start.lastEventAt.value then
              && StandingOf(t.customers[org]) == StandingOf(start) && t.customers[org].priceId == start.priceId
              && t.customers[org].lastEventAt == start.lastEventAt
            else
              && StandingOf(t.customers[org]) == Says(event) && Shows(t.customers[org], event.body)
              && t.customers[org].lastEventAt == event.created
  {
    var event, row := deliveries[newest].event, t.customers[org];
    assert NoNewerThan(event, row.lastEventAt);
    if i :| 0 <= i < |deliveries| && PutBy(row, deliveries[i].event, customer) {
      assert NoNewerThan(deliveries[i].event, event.created);
      assert deliveries[i].event.created == event.created;
      assert deliveries[i].event == event;
    }
  }

  /**
   Out-of-order convergence. Deliver any events in any order, with any repeats and any
   deliveries cut short; once every event of the customer is settled, the row stands
   exactly as the newest of them says, dated by it. The one exception is the row that
   started out newer than all of them, which stays as it was.
   */
  lemma OutOfOrderConvergence(s: State, org: nat, deliveries: seq<Delivery>, customer: string, newest: nat)
    requires OneOrgEach(s.customers) && BoundTo(s.customers, org, customer)
    requires Dated(deliveries, customer) && Unclaimed(s, deliveries, customer)
    requires newest < |deliveries| && ForCustomer(deliveries[newest].event, customer)
    requires forall i | 0 <= i < |deliveries| && ForCustomer(deliveries[i].event, customer) ::
               && Settled(HandleAll(s, deliveries).log, deliveries[i].event.id)
               && NoNewerThan(deliveries[i].event, deliveries[newest].event.created)
    ensures var start, event := s.customers[org], deliveries[newest].event;
            var t := HandleAll(s, deliveries);
            && BoundTo(t.customers, org, customer)
            && (if start.lastEventAt.Some? && event.created.value < start.lastEventAt.value then
                  && StandingOf(t.customers[org]) == StandingOf(start) && t.customers[org].priceId == start.priceId
                  && t.customers[org].lastEventAt == start.lastEventAt
                else
                  && StandingOf(t.customers[org]) == Says(event) && Shows(t.customers[org], event.body)
                  && t.customers[org].lastEventAt == event.created)
  {
    hide Shows;
    TracksAll(s, org, deliveries, customer);
    Converged(s, HandleAll(s, deliveries), org, deliveries, customer, newest);
  }

  // ------------------------------------------------------------------ where order does matter

  /** A settled event stays settled and is never run again. */
  lemma {:induction false} SettledForGood(s: State, deliveries: seq<Delivery>, id: nat)
    requires Settled(s.log, id)
    ensures var t := HandleAll(s, deliveries);
            Settled(t.log, id) && t.log[id] == s.log[id]
            && forall event: Event, now: int, fault: Fault | event.id == id :: Handle(t, event, now, fault) == t
    decreases |deliveries|
  {
    if deliveries != [] {
      SettledForGood(s, deliveries[..|deliveries| - 1], id);
    }
  }

  /**
   A subscription event that arrives before the checkout that binds its customer is lost:
   it changes no row, and after any later deliveries, the binding one included, a
   redelivery of it still does nothing.
   */
  lemma EarlyEventIsLost(s: State, event: Event, customer: string, now: int, later: seq<Delivery>, again: int, fault: Fault)
    requires ForCustomer(event, customer) && event.id !in s.log
    requires forall org | org in s.customers :: !BoundTo(s.customers, org, customer)
    ensures var t := Handle(s, event, now, NoFault);
            && t.customers == s.customers
            && Handle(HandleAll(t, later), event, again, fault) == HandleAll(t, later)
  {
    var t := Handle(s, event, now, NoFault);
    SettledForGood(t, later, event.id);
  }

  /** Two events with one timestamp: whichever comes second wins, so the orders agree exactly when the events do. */
  lemma TieConvergesIff(s: State, org: nat, customer: string, a: Delivery, b: Delivery)
    requires OneOrgEach(s.customers) && BoundTo(s.customers, org, customer)
    requires ForCustomer(a.event, customer) && ForCustomer(b.event, customer)
    requires a.event.id != b.event.id && a.event.id !in s.log && b.event.id !in s.log
    requires a.event.created.Some? && a.event.created == b.event.created && a.fault.NoFault? && b.fault.NoFault?
    requires s.customers[org].lastEventAt.Some? ==> s.customers[org].lastEventAt.value <= a.event.created.value
    ensures var t, u := HandleAll(s, [a, b]), HandleAll(s, [b, a]);
            && org in t.customers && org in u.customers
            && Shows(t.customers[org], b.event.body) && Shows(u.customers[org], a.event.body)
            && (StandingOf(t.customers[org]) == StandingOf(u.customers[org]) <==> Says(a.event) == Says(b.event))
  {
    SecondWins(s, org, customer, a, b);
    SecondWins(s, org, customer, b, a);
  }

  lemma SecondWins(s: State, org: nat, customer: string, a: Delivery, b: Delivery)
    requires OneOrgEach(s.customers) && BoundTo(s.customers, org, customer)
    requires ForCustomer(a.event, customer) && ForCustomer(b.event, customer)
    requires a.event.id != b.event.id && a.event.id !in s.log && b.event.id !in s.log
    requires a.event.created.Some? && a.event.created == b.event.created && a.fault.NoFault? && b.fault.NoFault?
    requires s.customers[org].lastEventAt.Some? ==> s.customers[org].lastEventAt.value <= a.event.created.value
    ensures var t := HandleAll(s, [a, b]);
            org in t.customers && StandingOf(t.customers[org]) == Says(b.event) && Shows(t.customers[org], b.event.body)
  {
    hide Shows;
    assert [a, b][..1] == [a] && [a][..0] == [];
    assert HandleAll(s, []) == s;
    var first := Handle(s, a.event, a.now, a.fault);
    assert HandleAll(s, [a]) == first;
    OwnDelivery(s, org, customer, a.event, a.now, a.fault);
    SettlesAtOnce(s, org, customer, a.event, a.now);
    DeliveryKeepsBindings(s, a.event, a.now, a.fault);
    OwnDelivery(first, org, customer, b.event, b.now, b.fault);
    WrittenShows(first.customers[org], b.event.body);
    SaysIsWritten(first.customers[org], b.event);
    SameColumns(Written(first.customers[org], b.event.body), Applied(first.customers[org], b.event, b.now), b.event.body);
    SettlesAtOnce(first, org, customer, b.event, b.now);
    assert HandleAll(s, [a, b]) == Handle(first, b.event, b.now, b.fault);
  }

  /** An uninterrupted first delivery to a bound customer settles the event. */
  lemma SettlesAtOnce(s: State, org: nat, customer: string, event: Event, now: int)
    requires BoundTo(s.customers, org, customer) && ForCustomer(event, customer) && event.id !in s.log
    ensures Handle(s, event, now, NoFault).log == s.log[event.id := LogRow(Processed, now)]
  {
    assert OrgOf(s.customers, customer).Some?;
  }

  // ------------------------------------------------------------------ a direct read of the subscription

  /** `apply_snapshot`: no ordering guard, and the last event's time is left alone. */
  function Snapshot(row: Customer, subscription: Option<Subscription>): Customer {
    match subscription
    case None =>
      row.(status := STATUS_NONE, subscriptionId := "", cancelAtPeriodEnd := false, periodEnd := None, checkoutPending := false)
    case Some(s) => Written(row, SubscriptionSet(row.customerId, s))
  }

  /**
   A late event undoes a snapshot exactly when it is not older than the last event
   applied, whatever its age next to the snapshot, and says something else.
   */
  lemma LateEventUndoesSnapshotIff(row: Customer, subscription: Option<Subscription>, event: Event, now: int)
    requires (event.body.SubscriptionSet? || event.body.SubscriptionDeleted?) && event.created.Some?
    ensures var read := Snapshot(row, subscription);
            StandingOf(Applied(read, event, now)) != StandingOf(read)
            <==> (row.lastEventAt.Some? ==> row.lastEventAt.value <= event.created.value)
                 && Says(event) != StandingOf(Snapshot(BLANK, subscription))
  {
    var read := Snapshot(row, subscription);
    assert StandingOf(read) == StandingOf(Snapshot(BLANK, subscription));
    assert StandingOf(Written(read, event.body)) == Says(event);
  }
}
