/**
 The daily counter table (`bump`, apps/analytics/counters.py) and its three readings
 (apps/analytics/selectors.py): a flow's totals, its nodes and its days.  Each reading is
 taken for one counter field at a time, as the queries sum each field on its own.
 */
module FlowStats {
  import opened Queue
  import opened StatusCounters

  /** `COUNTER_FIELDS`. */
  datatype Field = SentField | DeliveredField | FailedField | ClickedField
  {
    function Of(c: Counters): nat {
      match this
      case SentField => c.sent
      case DeliveredField => c.delivered
      case FailedField => c.failed
      case ClickedField => c.clicked
    }
  }

  datatype Cell = Cell(flow: nat, node: nat, day: int)

  /** A row of `node_stat_daily`; rows come in no particular order. */
  datatype Row = Row(cell: Cell, counters: Counters)

  /** A window of days, open at either end. */
  datatype Window = Window(start: Option<int>, end: Option<int>)
  {
    predicate Holds(day: int) {
      (start.Some? ==> start.value <= day) && (end.Some? ==> day <= end.value)
    }
  }

  /** One increment. */
  datatype Bump = Bump(cell: Cell, delta: Counters)

  // ------------------------------------------------------------------ the upsert

  /** The row of a cell, or the table's length. */
  function RowOf(rows: seq<Row>, cell: Cell): (i: nat)
    ensures i <= |rows|
    ensures i < |rows| ==> rows[i].cell == cell
    ensures forall j | 0 <= j < i :: rows[j].cell != cell
  {
    if rows == [] then 0 else if rows[0].cell == cell then 0 else 1 + RowOf(rows[1..], cell)
  }

  /** `INSERT … ON CONFLICT DO UPDATE SET x = x + EXCLUDED.x`; all-zero deltas are a no-op. */
  function Upserted(rows: seq<Row>, bump: Bump): seq<Row> {
    if bump.delta == ZERO then rows
    else
      var i := RowOf(rows, bump.cell);
      if i < |rows| then rows[i := Row(bump.cell, rows[i].counters.Plus(bump.delta))] else rows + [Row(bump.cell, bump.delta)]
  }

  function UpsertedAll(rows: seq<Row>, bumps: seq<Bump>): seq<Row> {
    if bumps == [] then rows else Upserted(UpsertedAll(rows, bumps[..|bumps| - 1]), bumps[|bumps| - 1])
  }

  // ------------------------------------------------------------------ the readings

  /** Which cells a query keeps. */
  datatype Query = Query(flow: nat, window: Window)
  {
    predicate Keeps(cell: Cell) {
      cell.flow == flow && window.Holds(cell.day)
    }
  }

  /** The rows a query keeps. */
  function Kept(rows: seq<Row>, q: Query): seq<Row> {
    if rows == [] then []
    else
      var front, last := rows[..|rows| - 1], rows[|rows| - 1];
      if q.Keeps(last.cell) then Kept(front, q) + [last] else Kept(front, q)
  }

  function SumRows(rows: seq<Row>, f: Field): nat {
    if rows == [] then 0 else SumRows(rows[..|rows| - 1], f) + f.Of(rows[|rows| - 1].counters)
  }

  /** `flow_totals`. */
  function FlowTotals(rows: seq<Row>, q: Query, f: Field): nat {
    SumRows(Kept(rows, q), f)
  }

  /** One group of a `values(...).annotate(Sum(...))`. */
  datatype Group = Group(key: int, sum: nat)

  /** What rows are grouped by. */
  datatype Axis = ByNode | ByDay
  {
    function KeyOf(cell: Cell): int {
      if ByNode? then cell.node else cell.day
    }
  }

  /** The group of a key, or the number of groups. */
  function GroupAt(groups: seq<Group>, key: int): (i: nat)
    ensures i <= |groups|
    ensures i < |groups| ==> groups[i].key == key
    ensures forall j | 0 <= j < i :: groups[j].key != key
  {
    if groups == [] then 0 else if groups[0].key == key then 0 else 1 + GroupAt(groups[1..], key)
  }

  function Grouped(groups: seq<Group>, key: int, more: nat): seq<Group> {
    var i := GroupAt(groups, key);
    if i < |groups| then groups[i := Group(key, groups[i].sum + more)] else groups + [Group(key, more)]
  }

  /** `GROUP BY`, groups in the order their first row came. */
  function GroupBy(rows: seq<Row>, axis: Axis, f: Field): seq<Group> {
    if rows == [] then []
    else
      var front, last := rows[..|rows| - 1], rows[|rows| - 1];
      Grouped(GroupBy(front, axis, f), axis.KeyOf(last.cell), f.Of(last.counters))
  }

  function SumGroups(groups: seq<Group>): nat {
    if groups == [] then 0 else SumGroups(groups[..|groups| - 1]) + groups[|groups| - 1].sum
  }

  /** `flow_node_stats`. */
  function FlowNodeStats(rows: seq<Row>, q: Query, f: Field): seq<Group> {
    GroupBy(Kept(rows, q), ByNode, f)
  }

  /** `grouped.get(key, empty_counters())`. */
  function GroupOr(groups: seq<Group>, key: int): nat {
    var i := GroupAt(groups, key);
    if i < |groups| then groups[i].sum else 0
  }

  /** One group per day from `start` to `end`, zero-filled. */
  function Filled(groups: seq<Group>, start: int, end: int): seq<Group>
    decreases end - start
  {
    if end < start then [] else Filled(groups, start, end - 1) + [Group(end, GroupOr(groups, end))]
  }

  function Placed(sorted: seq<Group>, g: Group): seq<Group> {
    if sorted == [] then [g]
    else if sorted[0].key < g.key then [sorted[0]] + Placed(sorted[1..], g)
    else [g] + sorted
  }

  /** `sorted(grouped.items())`. */
  function Sorted(groups: seq<Group>): seq<Group> {
    if groups == [] then [] else Placed(Sorted(groups[..|groups| - 1]), groups[|groups| - 1])
  }

  /** `flow_daily_series`: zero-filled between two bounds, only the days with rows otherwise. */
  function FlowDailySeries(rows: seq<Row>, q: Query, f: Field): seq<Group> {
    var groups := GroupBy(Kept(rows, q), ByDay, f);
    if q.window.start.None? || q.window.end.None? then Sorted(groups)
    else Filled(groups, q.window.start.value, q.window.end.value)
  }

  // ------------------------------------------------------------------ what an upsert and a total are

  /** An increment that is not nothing goes to its cell's row, counter by counter, or makes that row; no other row moves. */
  lemma UpsertLaw(rows: seq<Row>, bump: Bump)
    ensures var after, d := Upserted(rows, bump), bump.delta;
            if d.sent == 0 && d.delivered == 0 && d.failed == 0 && d.clicked == 0 then after == rows
            else if forall i | 0 <= i < |rows| :: rows[i].cell != bump.cell then after == rows + [Row(bump.cell, d)]
            else exists i :: 0 <= i < |rows| && rows[i].cell == bump.cell && |after| == |rows|
                   && (forall j | 0 <= j < |rows| && j != i :: after[j] == rows[j])
                   && after[i] == Row(bump.cell, Counters(rows[i].counters.sent + d.sent, rows[i].counters.delivered + d.delivered,
                                                          rows[i].counters.failed + d.failed, rows[i].counters.clicked + d.clicked))
  {
    var i := RowOf(rows, bump.cell);
    if i < |rows| { assert rows[i].cell == bump.cell; }
  }

  /** The rows of a flow whose day is not before the start nor after the end, both included, summed one by one. */
  function SumCells(rows: seq<Row>, flow: nat, start: Option<int>, end: Option<int>, f: Field): nat {
    if rows == [] then 0
    else
      var last := rows[|rows| - 1];
      SumCells(rows[..|rows| - 1], flow, start, end, f)
      + if last.cell.flow == flow && (start.Some? ==> start.value <= last.cell.day) && (end.Some? ==> last.cell.day <= end.value)
        then match f
             case SentField => last.counters.sent
             case DeliveredField => last.counters.delivered
             case FailedField => last.counters.failed
             case ClickedField => last.counters.clicked
        else 0
  }

  lemma {:induction false} TotalsAreTheCells(rows: seq<Row>, flow: nat, start: Option<int>, end: Option<int>, f: Field)
    ensures FlowTotals(rows, Query(flow, Window(start, end)), f) == SumCells(rows, flow, start, end, f)
  {
    if rows != [] {
      var q := Query(flow, Window(start, end));
      var front, last := rows[..|rows| - 1], rows[|rows| - 1];
      TotalsAreTheCells(front, flow, start, end, f);
      var kept := Kept(front, q);
      assert (kept + [last])[..|kept|] == kept;
    }
  }

  // ------------------------------------------------------------------ groups sum to the rows

  lemma SumGroupsSnoc(groups: seq<Group>, g: Group)
    ensures SumGroups(groups + [g]) == SumGroups(groups) + g.sum
  {
    assert (groups + [g])[..|groups|] == groups;
  }

  lemma {:induction false} SumGroupsCons(g: Group, groups: seq<Group>)
    ensures SumGroups([g] + groups) == g.sum + SumGroups(groups)
  {
    if groups == [] {
      assert [g] + groups == [] + [g];
      SumGroupsSnoc([], g);
    } else {
      var front, last := groups[..|groups| - 1], groups[|groups| - 1];
      SumGroupsCons(g, front);
      assert [g] + groups == ([g] + front) + [last];
      SumGroupsSnoc([g] + front, last);
    }
  }

  lemma {:induction false} SumGroupsRaised(groups: seq<Group>, i: nat, more: nat)
    requires i < |groups|
    ensures SumGroups(groups[i := Group(groups[i].key, groups[i].sum + more)]) == SumGroups(groups) + more
  {
    var front := groups[..|groups| - 1];
    var raised := groups[i := Group(groups[i].key, groups[i].sum + more)];
    if i == |groups| - 1 {
      assert raised[..|raised| - 1] == front;
    } else {
      SumGroupsRaised(front, i, more);
      assert raised[..|raised| - 1] == front[i := Group(front[i].key, front[i].sum + more)];
    }
  }

  predicate OneGroupEach(groups: seq<Group>) {
    forall i, j | 0 <= i < j < |groups| :: groups[i].key != groups[j].key
  }

  /** A group under its key is the one a lookup finds. */
  lemma OnlyGroup(groups: seq<Group>, i: nat)
    requires OneGroupEach(groups) && i < |groups|
    ensures GroupAt(groups, groups[i].key) == i
  {
  }

  lemma GroupedStaysSingle(groups: seq<Group>, key: int, more: nat)
    requires OneGroupEach(groups)
    ensures OneGroupEach(Grouped(groups, key, more))
  {
    hide SumGroups;
    var i := GroupAt(groups, key);
    if i == |groups| { assert forall k | 0 <= k < |groups| :: groups[k].key != key; }
  }

  lemma GroupedSum(groups: seq<Group>, key: int, more: nat)
    requires OneGroupEach(groups)
    ensures OneGroupEach(Grouped(groups, key, more)) && SumGroups(Grouped(groups, key, more)) == SumGroups(groups) + more
  {
    hide OneGroupEach, SumGroups, GroupAt;
    GroupedStaysSingle(groups, key, more);
    var i := GroupAt(groups, key);
    if i < |groups| { SumGroupsRaised(groups, i, more); } else { SumGroupsSnoc(groups, Group(key, more)); }
  }

  lemma NoGroup(groups: seq<Group>, key: int)
    requires forall k | 0 <= k < |groups| :: groups[k].key != key
    ensures GroupOr(groups, key) == 0
  {
  }

  lemma LookupIs(groups: seq<Group>, i: nat)
    requires OneGroupEach(groups) && i < |groups|
    ensures GroupOr(groups, groups[i].key) == groups[i].sum
  {
    OnlyGroup(groups, i);
  }

  lemma GroupedLookup(groups: seq<Group>, key: int, more: nat, other: int)
    requires OneGroupEach(groups)
    ensures GroupOr(Grouped(groups, key, more), other) == GroupOr(groups, other) + if other == key then more else 0
  {
    hide GroupAt, OneGroupEach, SumGroups;
    var grown, i, j := Grouped(groups, key, more), GroupAt(groups, key), GroupAt(groups, other);
    GroupedSum(groups, key, more);
    if other == key {
      LookupIs(grown, i);
    } else if j < |groups| {
      LookupIs(grown, j);
    } else {
      NoGroup(grown, other);
    }
  }

  lemma {:induction false} GroupsSum(rows: seq<Row>, axis: Axis, f: Field)
    ensures OneGroupEach(GroupBy(rows, axis, f)) && SumGroups(GroupBy(rows, axis, f)) == SumRows(rows, f)
  {
    if rows != [] {
      var front, last := rows[..|rows| - 1], rows[|rows| - 1];
      GroupsSum(front, axis, f);
      GroupedSum(GroupBy(front, axis, f), axis.KeyOf(last.cell), f.Of(last.counters));
    }
  }

  // ------------------------------------------------------------------ days sum to the rows

  lemma {:induction false} KeptFacts(rows: seq<Row>, q: Query)
    ensures forall r | r in Kept(rows, q) :: r in rows && q.Keeps(r.cell)
    ensures forall r | r in rows && q.Keeps(r.cell) :: r in Kept(rows, q)
  {
    if rows != [] { KeptFacts(rows[..|rows| - 1], q); }
  }

  lemma FilledSnoc(groups: seq<Group>, start: int, end: int)
    requires start <= end
    ensures SumGroups(Filled(groups, start, end)) == SumGroups(Filled(groups, start, end - 1)) + GroupOr(groups, end)
  {
    SumGroupsSnoc(Filled(groups, start, end - 1), Group(end, GroupOr(groups, end)));
  }

  /** Adding to one day adds as much to the zero-filled series, if the day is in it. */
  lemma {:induction false} FilledRaised(groups: seq<Group>, key: int, more: nat, start: int, end: int)
    requires OneGroupEach(groups)
    ensures SumGroups(Filled(Grouped(groups, key, more), start, end)) ==
            SumGroups(Filled(groups, start, end)) + if start <= key <= end then more else 0
    decreases end - start
  {
    if start <= end {
      FilledRaised(groups, key, more, start, end - 1);
      FilledSnoc(groups, start, end);
      FilledSnoc(Grouped(groups, key, more), start, end);
      GroupedLookup(groups, key, more, end);
    }
  }

  lemma {:induction false} EmptyFilled(start: int, end: int)
    ensures SumGroups(Filled([], start, end)) == 0
    decreases end - start
  {
    if start <= end {
      EmptyFilled(start, end - 1);
      FilledSnoc([], start, end);
    }
  }

  lemma {:induction false} DaysSum(rows: seq<Row>, start: int, end: int, f: Field)
    requires forall r | r in rows :: start <= r.cell.day <= end
    ensures SumGroups(Filled(GroupBy(rows, ByDay, f), start, end)) == SumRows(rows, f)
  {
    if rows == [] {
      EmptyFilled(start, end);
    } else {
      var front, last := rows[..|rows| - 1], rows[|rows| - 1];
      DaysSum(front, start, end, f);
      GroupsSum(front, ByDay, f);
      FilledRaised(GroupBy(front, ByDay, f), last.cell.day, f.Of(last.counters), start, end);
    }
  }

  lemma {:induction false} PlacedSum(sorted: seq<Group>, g: Group)
    ensures SumGroups(Placed(sorted, g)) == SumGroups(sorted) + g.sum
  {
    if sorted == [] {
      assert Placed(sorted, g) == [] + [g];
      SumGroupsSnoc([], g);
    } else if sorted[0].key < g.key {
      PlacedSum(sorted[1..], g);
      SumGroupsCons(sorted[0], Placed(sorted[1..], g));
      assert sorted == [sorted[0]] + sorted[1..];
      SumGroupsCons(sorted[0], sorted[1..]);
    } else {
      SumGroupsCons(g, sorted);
    }
  }

  predicate Ascending(groups: seq<Group>) {
    forall i, j | 0 <= i < j < |groups| :: groups[i].key < groups[j].key
  }

  lemma LeastFirst(sorted: seq<Group>)
    requires Ascending(sorted) && sorted != []
    ensures forall h | h in sorted[1..] :: sorted[0].key < h.key
  {
  }

  lemma ConsAscends(g: Group, rest: seq<Group>)
    requires Ascending(rest) && forall h | h in rest :: g.key < h.key
    ensures Ascending([g] + rest)
  {
    assert forall j | 0 <= j < |rest| :: rest[j] in rest;
  }

  lemma {:induction false} PlacedAscends(sorted: seq<Group>, g: Group)
    requires Ascending(sorted) && forall h | h in sorted :: h.key != g.key
    ensures Ascending(Placed(sorted, g))
    ensures forall h :: h in Placed(sorted, g) <==> h in sorted || h == g
  {
    if sorted == [] {
      assert Placed(sorted, g) == [g];
    } else if sorted[0].key < g.key {
      var rest := Placed(sorted[1..], g);
      PlacedAscends(sorted[1..], g);
      assert sorted == [sorted[0]] + sorted[1..];
      LeastFirst(sorted);
      ConsAscends(sorted[0], rest);
    } else {
      assert sorted[0] in sorted;
      ConsAscends(g, sorted);
    }
  }

  lemma {:induction false} SortedSum(groups: seq<Group>)
    ensures SumGroups(Sorted(groups)) == SumGroups(groups)
  {
    if groups != [] {
      SortedSum(groups[..|groups| - 1]);
      PlacedSum(Sorted(groups[..|groups| - 1]), groups[|groups| - 1]);
    }
  }

  lemma {:induction false} SortedAscends(groups: seq<Group>)
    requires OneGroupEach(groups)
    ensures Ascending(Sorted(groups)) && forall h :: h in Sorted(groups) <==> h in groups
  {
    if groups != [] {
      var front, last := groups[..|groups| - 1], groups[|groups| - 1];
      SortedAscends(front);
      assert forall h | h in front :: h.key != last.key;
      PlacedAscends(Sorted(front), last);
      assert groups == front + [last];
    }
  }

  /**
   The three readings agree: over any window a flow's totals are the sum of its nodes and
   the sum of its days, zero-filled or not.
   */
  lemma ThreeReadingsAgree(rows: seq<Row>, q: Query, f: Field)
    ensures SumGroups(FlowNodeStats(rows, q, f)) == FlowTotals(rows, q, f)
    ensures SumGroups(FlowDailySeries(rows, q, f)) == FlowTotals(rows, q, f)
  {
    var kept := Kept(rows, q);
    KeptFacts(rows, q);
    GroupsSum(kept, ByNode, f);
    GroupsSum(kept, ByDay, f);
    SortedSum(GroupBy(kept, ByDay, f));
    if q.window.start.Some? && q.window.end.Some? {
      DaysSum(kept, q.window.start.value, q.window.end.value, f);
    }
  }

  /** The rows of one key, summed without grouping. */
  function SumOf(rows: seq<Row>, axis: Axis, key: int, f: Field): nat {
    if rows == [] then 0
    else
      var front, last := rows[..|rows| - 1], rows[|rows| - 1];
      SumOf(front, axis, key, f) + if axis.KeyOf(last.cell) == key then f.Of(last.counters) else 0
  }

  /** Each group holds the sum of the rows under its key. */
  lemma {:induction false} GroupHoldsItsRows(rows: seq<Row>, axis: Axis, key: int, f: Field)
    ensures GroupOr(GroupBy(rows, axis, f), key) == SumOf(rows, axis, key, f)
  {
    if rows != [] {
      var front, last := rows[..|rows| - 1], rows[|rows| - 1];
      GroupHoldsItsRows(front, axis, key, f);
      GroupsSum(front, axis, f);
      GroupedLookup(GroupBy(front, axis, f), axis.KeyOf(last.cell), f.Of(last.counters), key);
    }
  }

  lemma {:induction false} FilledAt(groups: seq<Group>, start: int, end: int, k: nat)
    requires k < end - start + 1
    ensures |Filled(groups, start, end)| == end - start + 1
    ensures Filled(groups, start, end)[k] == Group(start + k, GroupOr(groups, start + k))
    decreases end - start
  {
    if end > start {
      if k < end - start { FilledAt(groups, start, end - 1, k); } else { FilledAt(groups, start, end - 1, k - 1); }
    }
  }

  /** Between two bounds the series has one entry per day, oldest first, holding that day's rows. */
  lemma SeriesByDay(rows: seq<Row>, q: Query, f: Field, k: nat)
    requires q.window.start.Some? && q.window.end.Some? && k < q.window.end.value - q.window.start.value + 1
    ensures var series := FlowDailySeries(rows, q, f);
            && |series| == q.window.end.value - q.window.start.value + 1
            && series[k] == Group(q.window.start.value + k, SumOf(Kept(rows, q), ByDay, q.window.start.value + k, f))
  {
    var groups := GroupBy(Kept(rows, q), ByDay, f);
    FilledAt(groups, q.window.start.value, q.window.end.value, k);
    GroupHoldsItsRows(Kept(rows, q), ByDay, q.window.start.value + k, f);
  }

  /** With an open end the series is in strict order of days. */
  lemma OpenSeriesAscends(rows: seq<Row>, q: Query, f: Field)
    requires q.window.start.None? || q.window.end.None?
    ensures Ascending(FlowDailySeries(rows, q, f))
    ensures forall g | g in FlowDailySeries(rows, q, f) :: g.sum == SumOf(Kept(rows, q), ByDay, g.key, f)
  {
    var groups := GroupBy(Kept(rows, q), ByDay, f);
    GroupsSum(Kept(rows, q), ByDay, f);
    SortedAscends(groups);
    forall g | g in FlowDailySeries(rows, q, f) ensures g.sum == SumOf(Kept(rows, q), ByDay, g.key, f) {
      var i :| 0 <= i < |groups| && groups[i] == g;
      OnlyGroup(groups, i);
      GroupHoldsItsRows(Kept(rows, q), ByDay, g.key, f);
    }
  }

  // ------------------------------------------------------------------ no increment is lost

  /** What a list of bumps adds to the cells a query keeps. */
  function Added(bumps: seq<Bump>, q: Query, f: Field): nat {
    if bumps == [] then 0 else Added(bumps[..|bumps| - 1], q, f) + Share(bumps[|bumps| - 1], q, f)
  }

  function Share(bump: Bump, q: Query, f: Field): nat {
    if q.Keeps(bump.cell) then f.Of(bump.delta) else 0
  }

  lemma KeptSnoc(rows: seq<Row>, row: Row, q: Query, f: Field)
    ensures FlowTotals(rows + [row], q, f) == FlowTotals(rows, q, f) + if q.Keeps(row.cell) then f.Of(row.counters) else 0
  {
    assert (rows + [row])[..|rows|] == rows;
    var kept := Kept(rows, q);
    assert (kept + [row])[..|kept|] == kept;
  }

  lemma {:induction false} RaisedTotals(rows: seq<Row>, i: nat, more: Counters, q: Query, f: Field)
    requires i < |rows|
    ensures FlowTotals(rows[i := Row(rows[i].cell, rows[i].counters.Plus(more))], q, f) ==
            FlowTotals(rows, q, f) + if q.Keeps(rows[i].cell) then f.Of(more) else 0
  {
    var front, last := rows[..|rows| - 1], rows[|rows| - 1];
    var row := Row(rows[i].cell, rows[i].counters.Plus(more));
    assert rows == front + [last];
    KeptSnoc(front, last, q, f);
    if i == |rows| - 1 {
      assert rows[i := row] == front + [row];
      KeptSnoc(front, row, q, f);
    } else {
      RaisedTotals(front, i, more, q, f);
      assert rows[i := row] == front[i := row] + [last];
      KeptSnoc(front[i := row], last, q, f);
    }
  }

  /** A bump adds its delta to every reading that keeps its cell and to no other. */
  lemma UpsertAdds(rows: seq<Row>, bump: Bump, q: Query, f: Field)
    ensures FlowTotals(Upserted(rows, bump), q, f) == FlowTotals(rows, q, f) + Share(bump, q, f)
  {
    var i := RowOf(rows, bump.cell);
    if bump.delta != ZERO {
      if i < |rows| { RaisedTotals(rows, i, bump.delta, q, f); } else { KeptSnoc(rows, Row(bump.cell, bump.delta), q, f); }
    }
  }

  lemma {:induction false} UpsertsAdd(rows: seq<Row>, bumps: seq<Bump>, q: Query, f: Field)
    ensures FlowTotals(UpsertedAll(rows, bumps), q, f) == FlowTotals(rows, q, f) + Added(bumps, q, f)
  {
    if bumps != [] {
      UpsertsAdd(rows, bumps[..|bumps| - 1], q, f);
      UpsertAdds(UpsertedAll(rows, bumps[..|bumps| - 1]), bumps[|bumps| - 1], q, f);
    }
  }

  lemma {:induction false} AddedWithout(bumps: seq<Bump>, i: nat, q: Query, f: Field)
    requires i < |bumps|
    ensures Added(bumps, q, f) == Added(bumps[..i] + bumps[i + 1..], q, f) + Share(bumps[i], q, f)
  {
    var front, last := bumps[..|bumps| - 1], bumps[|bumps| - 1];
    if i == |bumps| - 1 {
      assert bumps[..i] + bumps[i + 1..] == front;
    } else {
      AddedWithout(front, i, q, f);
      var rest := front[..i] + front[i + 1..];
      assert bumps[..i] + bumps[i + 1..] == rest + [last];
      assert (rest + [last])[..|rest|] == rest;
    }
  }

  /** Where the last of `a` is in `b`, and what is left of both without it. */
  lemma FindLast(a: seq<Bump>, b: seq<Bump>) returns (i: nat)
    requires a != [] && multiset(a) == multiset(b)
    ensures i < |b| && b[i] == a[|a| - 1] && multiset(a[..|a| - 1]) == multiset(b[..i] + b[i + 1..])
  {
    var front, last := a[..|a| - 1], a[|a| - 1];
    assert a == front + [last];
    assert last in multiset(b);
    i :| 0 <= i < |b| && b[i] == last;
    TakeOut(b, i);
    TakeOut(a, |a| - 1);
    assert a[..|a| - 1] + a[|a| - 1 + 1..] == front;
  }

  lemma TakeOut(b: seq<Bump>, i: nat)
    requires i < |b|
    ensures multiset(b[..i] + b[i + 1..]) == multiset(b) - multiset{b[i]}
  {
    assert b == b[..i] + [b[i]] + b[i + 1..];
  }

  lemma {:induction false} AddedInAnyOrder(a: seq<Bump>, b: seq<Bump>, q: Query, f: Field)
    requires multiset(a) == multiset(b)
    ensures Added(a, q, f) == Added(b, q, f)
  {
    if a == [] {
      assert |multiset(b)| == 0;
    } else {
      var front, last := a[..|a| - 1], a[|a| - 1];
      var i := FindLast(a, b);
      AddedInAnyOrder(front, b[..i] + b[i + 1..], q, f);
      AddedWithout(b, i, q, f);
    }
  }

  /** However workers interleave the same bumps, every reading of every flow over every window comes out the same. */
  lemma AnyInterleavingCountsTheSame(rows: seq<Row>, a: seq<Bump>, b: seq<Bump>, q: Query, f: Field)
    requires multiset(a) == multiset(b)
    ensures FlowTotals(UpsertedAll(rows, a), q, f) == FlowTotals(UpsertedAll(rows, b), q, f)
    ensures SumGroups(FlowDailySeries(UpsertedAll(rows, a), q, f)) == SumGroups(FlowDailySeries(UpsertedAll(rows, b), q, f))
    ensures SumGroups(FlowNodeStats(UpsertedAll(rows, a), q, f)) == SumGroups(FlowNodeStats(UpsertedAll(rows, b), q, f))
  {
    UpsertsAdd(rows, a, q, f);
    UpsertsAdd(rows, b, q, f);
    AddedInAnyOrder(a, b, q, f);
    ThreeReadingsAgree(UpsertedAll(rows, a), q, f);
    ThreeReadingsAgree(UpsertedAll(rows, b), q, f);
  }

  // ------------------------------------------------------------------ the table as it is written and read

  class Table {
    var rows: seq<Row>

    constructor ()
      ensures rows == []
    {
      rows := [];
    }

    /** `bump`, the one statement the database runs. */
    method Add(bump: Bump)
      modifies this
      ensures rows == Upserted(old(rows), bump)
      ensures forall q: Query, f: Field :: FlowTotals(rows, q, f) == FlowTotals(old(rows), q, f) + Share(bump, q, f)
    {
      forall q: Query, f: Field ensures FlowTotals(Upserted(rows, bump), q, f) == FlowTotals(rows, q, f) + Share(bump, q, f) {
        UpsertAdds(rows, bump, q, f);
      }
      if bump.delta == ZERO { return; }
      var i := RowOf(rows, bump.cell);
      if i < |rows| {
        rows := rows[i := Row(bump.cell, rows[i].counters.Plus(bump.delta))];
      } else {
        rows := rows + [Row(bump.cell, bump.delta)];
      }
    }
  }

  /** The loop of `flow_daily_series` between two bounds. */
  method DailySeries(rows: seq<Row>, q: Query, f: Field) returns (series: seq<Group>)
    requires q.window.start.Some? && q.window.end.Some?
    ensures series == FlowDailySeries(rows, q, f)
    ensures SumGroups(series) == FlowTotals(rows, q, f)
    ensures forall k | 0 <= k < |series| :: series[k].key == q.window.start.value + k
  {
    hide GroupBy, Kept, SumGroups, SumRows, GroupOr;
    var groups := GroupBy(Kept(rows, q), ByDay, f);
    var day, end := q.window.start.value, q.window.end.value;
    series := [];
    while day <= end
      invariant q.window.start.value <= day && (day <= end + 1 || series == [])
      invariant series == Filled(groups, q.window.start.value, day - 1)
      invariant |series| == day - q.window.start.value
      invariant forall k | 0 <= k < |series| :: series[k].key == q.window.start.value + k
    {
      series := series + [Group(day, GroupOr(groups, day))];
      day := day + 1;
    }
    ThreeReadingsAgree(rows, q, f);
  }
}
