/** Many messages at once: what a flow's counters say about the messages behind them. */
module MessageTotals {
  import opened Queue
  import opened StatusCounters
  import opened FlowStats

  /** The flow node that sent a message. */
  datatype Home = Home(flow: nat, node: nat)

  /** Something happening to one message, on the day its counter is written. */
  datatype Event = Event(message: nat, what: Happening, day: int)

  ghost predicate Valid(homes: seq<Home>, events: seq<Event>) {
    forall i | 0 <= i < |events| :: events[i].message < |homes| && events[i].what.Wellformed()
  }

  /** What happened to one message, in order. */
  function RunOf(events: seq<Event>, message: nat): seq<Happening> {
    if events == [] then []
    else
      var front, last := events[..|events| - 1], events[|events| - 1];
      if last.message == message then RunOf(front, message) + [last.what] else RunOf(front, message)
  }

  /** `record_message_status` for every event: each bumps the cell of its message's node. */
  function BumpsOf(homes: seq<Home>, events: seq<Event>): seq<Bump>
    requires forall i | 0 <= i < |events| :: events[i].message < |homes|
  {
    if events == [] then []
    else
      var front, last := events[..|events| - 1], events[|events| - 1];
      var home := homes[last.message];
      BumpsOf(homes, front)
      + [Bump(Cell(home.flow, home.node, last.day), Counted(Walk(RunOf(front, last.message)), last.what))]
  }

  /** The first `n` messages' own tallies, those of one flow. */
  function SumTallies(homes: seq<Home>, events: seq<Event>, n: nat, flow: nat, f: Field): nat
    requires n <= |homes|
  {
    if n == 0 then 0
    else
      SumTallies(homes, events, n - 1, flow, f)
      + if homes[n - 1].flow == flow then f.Of(Tally(RunOf(events, n - 1))) else 0
  }

  lemma RunGrowsBy(events: seq<Event>, last: Event, message: nat)
    ensures RunOf(events + [last], message) ==
            if last.message == message then RunOf(events, message) + [last.what] else RunOf(events, message)
  {
    assert (events + [last])[..|events|] == events;
  }

  lemma OfPlus(f: Field, a: Counters, b: Counters)
    ensures f.Of(a.Plus(b)) == f.Of(a) + f.Of(b)
  {
  }

  lemma {:induction false} TalliesGrow(homes: seq<Home>, events: seq<Event>, last: Event, n: nat, flow: nat, f: Field)
    requires n <= |homes|
    ensures SumTallies(homes, events + [last], n, flow, f) ==
            SumTallies(homes, events, n, flow, f)
            + if last.message < n && homes[last.message].flow == flow
              then f.Of(Counted(Walk(RunOf(events, last.message)), last.what)) else 0
  {
    hide Tally, Walk, Counted, RunOf, Counters.Plus;
    if n > 0 {
      TalliesGrow(homes, events, last, n - 1, flow, f);
      RunGrowsBy(events, last, n - 1);
      if last.message == n - 1 {
        var run := RunOf(events, n - 1);
        RunGrows(run, last.what);
        OfPlus(f, Tally(run), Counted(Walk(run), last.what));
      }
    }
  }

  const ALL_TIME := Window(None, None)

  lemma {:induction false} BumpsAddTallies(homes: seq<Home>, events: seq<Event>, flow: nat, f: Field)
    requires Valid(homes, events)
    ensures Added(BumpsOf(homes, events), Query(flow, ALL_TIME), f) == SumTallies(homes, events, |homes|, flow, f)
    decreases |events|
  {
    hide Walk, Counted, SumTallies;
    if events == [] {
      NoTallies(homes, |homes|, flow, f);
    } else {
      var front, last := events[..|events| - 1], events[|events| - 1];
      BumpsAddTallies(homes, front, flow, f);
      TalliesGrow(homes, front, last, |homes|, flow, f);
      assert events == front + [last];
      var bumps := BumpsOf(homes, events);
      assert bumps[..|bumps| - 1] == BumpsOf(homes, front);
    }
  }

  lemma {:induction false} NoTallies(homes: seq<Home>, n: nat, flow: nat, f: Field)
    requires n <= |homes|
    ensures SumTallies(homes, [], n, flow, f) == 0
  {
    if n > 0 { NoTallies(homes, n - 1, flow, f); }
  }

  /** The messages of a flow, among the first `n`, that a test picks out. */
  ghost function CountWhere(homes: seq<Home>, events: seq<Event>, n: nat, flow: nat, from: set<Status>, to: set<Status>): nat
    requires n <= |homes|
  {
    if n == 0 then 0
    else
      CountWhere(homes, events, n - 1, flow, from, to)
      + if homes[n - 1].flow == flow && Moves(RunOf(events, n - 1), from, to) then 1 else 0
  }

  lemma {:induction false} RunsWellformed(homes: seq<Home>, events: seq<Event>, message: nat)
    requires Valid(homes, events)
    ensures Wellformed(RunOf(events, message))
    decreases |events|
  {
    hide Walk;
    if events != [] {
      var front, last := events[..|events| - 1], events[|events| - 1];
      assert forall i | 0 <= i < |front| :: front[i] == events[i];
      RunsWellformed(homes, front, message);
      assert last.what.Wellformed();
    }
  }

  lemma {:induction false} TalliesCount(homes: seq<Home>, events: seq<Event>, n: nat, flow: nat)
    requires Valid(homes, events) && n <= |homes|
    ensures SumTallies(homes, events, n, flow, SentField) == CountWhere(homes, events, n, flow, {Queued}, OFF_QUEUE)
    ensures SumTallies(homes, events, n, flow, DeliveredField) ==
            CountWhere(homes, events, n, flow, {Queued, Sent, StatusCounters.Failed}, ARRIVED)
  {
    hide Tally, Walk, Moves, Falls;
    if n > 0 {
      TalliesCount(homes, events, n - 1, flow);
      RunsWellformed(homes, events, n - 1);
      CountersTelescope(RunOf(events, n - 1));
    }
  }

  /**
   Conservation: after any interleaving of receipts for any number of messages, a flow's
   all-time `sent` is the number of its messages that left the queue for the ladder, and
   its `delivered` the number that ever arrived; over any window its nodes and its days add
   up to the same totals.
   */
  lemma TotalsCountMessages(homes: seq<Home>, events: seq<Event>, flow: nat, window: Window)
    requires Valid(homes, events)
    ensures var rows := UpsertedAll([], BumpsOf(homes, events));
            && FlowTotals(rows, Query(flow, ALL_TIME), SentField) == CountWhere(homes, events, |homes|, flow, {Queued}, OFF_QUEUE)
            && FlowTotals(rows, Query(flow, ALL_TIME), DeliveredField) ==
               CountWhere(homes, events, |homes|, flow, {Queued, Sent, StatusCounters.Failed}, ARRIVED)
            && Agree(rows, Query(flow, window), SentField) && Agree(rows, Query(flow, window), DeliveredField)
  {
    hide BumpsOf, UpsertedAll, SumTallies, CountWhere, SumGroups, FlowNodeStats, FlowDailySeries, Added;
    var q := Query(flow, ALL_TIME);
    UpsertsAdd([], BumpsOf(homes, events), q, SentField);
    UpsertsAdd([], BumpsOf(homes, events), q, DeliveredField);
    BumpsAddTallies(homes, events, flow, SentField);
    BumpsAddTallies(homes, events, flow, DeliveredField);
    TalliesCount(homes, events, |homes|, flow);
    ThreeReadingsAgree(UpsertedAll([], BumpsOf(homes, events)), Query(flow, window), SentField);
    ThreeReadingsAgree(UpsertedAll([], BumpsOf(homes, events)), Query(flow, window), DeliveredField);
  }

  /** The totals, the nodes and the days of a query are one figure. */
  predicate Agree(rows: seq<Row>, q: Query, f: Field) {
    && SumGroups(FlowNodeStats(rows, q, f)) == FlowTotals(rows, q, f)
    && SumGroups(FlowDailySeries(rows, q, f)) == FlowTotals(rows, q, f)
  }
}
