/**
 Editing the rungs of a sequence under a unique (sequence, position) index that is
 checked as each row of an UPDATE lands.
 */
module SequenceSteps {

  const MAX_STEPS: nat := 50
  const RENUMBER_OFFSET: nat := 1000

  /** Step id to position. */
  type Positions = map<nat, nat>

  /** The unique index. */
  ghost predicate Unique(rows: Positions) {
    forall a, b | a in rows && b in rows && rows[a] == rows[b] :: a == b
  }

  /** Positions are exactly 1..n. */
  ghost predicate Contiguous(rows: Positions) {
    Unique(rows) && forall id | id in rows :: 1 <= rows[id] <= |rows|
  }

  /** The first statement of the renumber, at a moment when it has reached the rows in `done`. */
  function Parked(rows: Positions, done: set<nat>, gap: nat): Positions {
    map id | id in rows :: if id in done && rows[id] > gap then rows[id] + RENUMBER_OFFSET else rows[id]
  }

  /** The second statement, likewise. */
  function Lowered(rows: Positions, done: set<nat>): Positions {
    map id | id in rows ::
      if id in done && rows[id] > RENUMBER_OFFSET then rows[id] - RENUMBER_OFFSET - 1 else rows[id]
  }

  /** What a deletion leaves: the gap closed, everybody else in place. */
  function Closed(rows: Positions, gap: nat): Positions {
    map id | id in rows :: if rows[id] > gap then (rows[id] - 1) as nat else rows[id]
  }

  /** The rows a deletion at `gap` renumbers: distinct positions in 1..50, none of them the gap. */
  ghost predicate Gapped(rows: Positions, gap: nat) {
    Unique(rows) && gap >= 1 && forall id | id in rows :: 1 <= rows[id] <= MAX_STEPS && rows[id] != gap
  }

  /** No moment of the parking statement holds two equal positions, in whatever order the rows are walked. */
  lemma ParkingNeverCollides(rows: Positions, gap: nat, done: set<nat>)
    requires Gapped(rows, gap)
    ensures Unique(Parked(rows, done, gap))
  {
    var p := Parked(rows, done, gap);
    forall a, b | a in p && b in p && p[a] == p[b] ensures a == b {
      assert rows[a] == rows[b];
    }
  }

  /** Where one row stands once parked, and perhaps lowered. */
  function PlaceAfter(position: nat, gap: nat, done: bool): nat {
    var parked := if position > gap then position + RENUMBER_OFFSET else position;
    if done && parked > RENUMBER_OFFSET then parked - RENUMBER_OFFSET - 1 else parked
  }

  lemma PlacesDiffer(x: nat, y: nat, gap: nat, doneX: bool, doneY: bool)
    requires 1 <= x <= MAX_STEPS && 1 <= y <= MAX_STEPS && x != gap && y != gap
    requires PlaceAfter(x, gap, doneX) == PlaceAfter(y, gap, doneY)
    ensures x == y
  {
  }

  /** Nor does any moment of the lowering one. */
  lemma LoweringNeverCollides(rows: Positions, gap: nat, done: set<nat>)
    requires Gapped(rows, gap)
    ensures Unique(Lowered(Parked(rows, rows.Keys, gap), done))
  {
    var p := Lowered(Parked(rows, rows.Keys, gap), done);
    assert forall id | id in p :: id in rows && p[id] == PlaceAfter(rows[id], gap, id in done);
    forall a, b | a in p && b in p && p[a] == p[b] ensures a == b {
      hide Lowered, Parked, PlaceAfter;
      PlacesDiffer(rows[a], rows[b], gap, a in done, b in done);
    }
  }

  /** Together they close the gap. */
  lemma RenumberCloses(rows: Positions, gap: nat)
    requires Gapped(rows, gap)
    ensures Lowered(Parked(rows, rows.Keys, gap), rows.Keys) == Closed(rows, gap)
  {
  }

  /** The single statement the two replace does collide, if the rows arrive in descending order. */
  lemma OneStatementCollides()
    ensures var rows := map[7 := 2, 8 := 3];
            Unique(rows) && !Unique(rows[8 := 2])
  {
    var rows: Positions := map[7 := 2, 8 := 3];
    assert rows[8 := 2][7] == rows[8 := 2][8];
  }

  // ------------------------------------------------------------------ contiguity

  function UpTo(n: nat): (r: set<nat>)
    ensures forall p :: p in r <==> 1 <= p <= n
  {
    if n == 0 then {} else UpTo(n - 1) + {n}
  }

  lemma {:induction false} UpToSize(n: nat)
    ensures |UpTo(n)| == n
  {
    if n > 0 {
      UpToSize(n - 1);
    }
  }

  function Taken(rows: Positions): set<nat> {
    set id | id in rows :: rows[id]
  }

  lemma {:induction false} TakenSize(rows: Positions)
    requires Unique(rows)
    ensures |Taken(rows)| == |rows|
    decreases |rows|
  {
    if |rows| > 0 {
      var id :| id in rows;
      var rest := map a | a in rows && a != id :: rows[a];
      assert rows.Keys == rest.Keys + {id};
      TakenSize(rest);
      assert Taken(rows) == Taken(rest) + {rows[id]} by {
        forall p | p in Taken(rows) ensures p in Taken(rest) + {rows[id]} {
          var a :| a in rows && rows[a] == p;
          if a != id { assert a in rest; }
        }
      }
      assert rows[id] !in Taken(rest);
    }
  }

  lemma SubsetOfSameSize(a: set<nat>, b: set<nat>)
    requires a <= b && |a| == |b|
    ensures a == b
  {
    assert |b - a| == |b| - |a|;
  }

  /** Contiguous positions leave no rung empty. */
  lemma EveryRungTaken(rows: Positions)
    requires Contiguous(rows)
    ensures Taken(rows) == UpTo(|rows|)
  {
    TakenSize(rows);
    UpToSize(|rows|);
    SubsetOfSameSize(Taken(rows), UpTo(|rows|));
  }

  /** Removing the step at `gap` and closing it leaves 1..n-1, with the survivors in the same order. */
  lemma ClosingKeepsOrder(rows: Positions, id: nat)
    requires Contiguous(rows) && id in rows
    ensures var closed := Closed(rows - {id}, rows[id]);
            && Contiguous(closed)
            && closed.Keys == rows.Keys - {id}
            && forall a, b | a in closed && b in closed :: closed[a] < closed[b] <==> rows[a] < rows[b]
  {
    var closed := Closed(rows - {id}, rows[id]);
    assert closed.Keys == rows.Keys - {id};
    assert |closed| == |closed.Keys| == |rows.Keys| - 1;
  }

  function Members(order: seq<nat>): set<nat> {
    set a | a in order
  }

  // ------------------------------------------------------------------ the services

  class Steps {
    var rows: Positions

    constructor ()
      ensures rows == map[]
    {
      rows := map[];
    }

    /** `add_step`: refused at the cap, and when the position is taken by a concurrent edit. */
    method AddStep(id: nat) returns (added: bool)
      requires id !in rows
      modifies this
      ensures added <==> old(|rows|) < 50 && old(|rows|) + 1 !in Taken(old(rows))
      ensures rows == if added then old(rows)[id := old(|rows|) + 1] else old(rows)
      ensures Contiguous(old(rows)) ==> Contiguous(rows) && (added <==> old(|rows|) < 50)
    {
      var count := |rows|;
      if count >= MAX_STEPS { return false; }
      var position := count + 1;
      if exists other | other in rows :: rows[other] == position { return false; }
      ghost var before: Positions := rows;
      rows := rows[id := position];
      assert |rows| == count + 1;
      return true;
    }

    /** `position = position + 1000`, row by row in the order the planner walks them. */
    method ParkRows(gap: nat, order: seq<nat>)
      requires Gapped(rows, gap) && Walks(order, rows)
      modifies this
      ensures rows == Parked(old(rows), old(rows).Keys, gap)
    {
      hide *;
      ghost var before: Positions := rows;
      ParkEnds(order, before, gap);
      for i := 0 to |order|
        invariant rows == ParkMoment(before, order, i, gap) && Unique(rows)
      {
        ParkOne(order, i, before, gap);
        if rows[order[i]] > gap { rows := rows[order[i] := rows[order[i]] + RENUMBER_OFFSET]; }
      }
    }

    /** `position = position - 1001`, likewise. */
    method LowerRows(order: seq<nat>, ghost before: Positions, ghost gap: nat)
      requires Gapped(before, gap) && rows == Parked(before, before.Keys, gap) && Walks(order, rows)
      modifies this
      ensures rows == Lowered(old(rows), before.Keys)
    {
      hide *;
      ghost var parked: Positions := rows;
      LowerEnds(order, before, gap, parked);
      for i := 0 to |order|
        invariant rows == LowerMoment(parked, order, i) && Unique(rows)
      {
        LowerOne(order, i, before, gap, parked);
        if rows[order[i]] > RENUMBER_OFFSET { rows := rows[order[i] := rows[order[i]] - RENUMBER_OFFSET - 1]; }
      }
    }

    /** `delete_step`, with the planner free to walk the rows in any order, twice. */
    method DeleteStep(id: nat, first: seq<nat>, second: seq<nat>)
      requires Contiguous(rows) && |rows| <= MAX_STEPS && id in rows
      requires Walks(first, rows - {id}) && Walks(second, rows - {id})
      modifies this
      ensures rows == Closed(old(rows) - {id}, old(rows)[id])
      ensures Contiguous(rows)
    {
      ghost var all: Positions := rows;
      var gap := rows[id];
      rows := rows - {id};
      ghost var before: Positions := rows;
      ParkRows(gap, first);
      LowerRows(second, before, gap);
      RenumberCloses(before, gap);
      ClosingKeepsOrder(all, id);
    }

    /** `move_step`: three updates through position 0, each keeping the index; exactly a swap. */
    method MoveStep(id: nat, up: bool)
      requires Contiguous(rows) && id in rows
      modifies this
      ensures Contiguous(rows)
      ensures var other := if up then old(rows)[id] - 1 else old(rows)[id] + 1;
              if 1 <= other <= old(|rows|)
              then exists n :: n in old(rows) && old(rows)[n] == other && rows == Swapped(old(rows), id, n)
              else rows == old(rows)
    {
      var other: int := if up then rows[id] - 1 else rows[id] + 1;
      RungHolder(rows, other);
      var neighbours := set n | n in rows && rows[n] == other;
      if neighbours == {} {
        assert forall n | n in rows :: n !in neighbours;
        return;
      }
      var n :| n in neighbours;
      SwapThroughZero(id, n);
    }

    method SwapThroughZero(id: nat, n: nat)
      requires Contiguous(rows) && id in rows && n in rows && id != n
      modifies this
      ensures rows == Swapped(old(rows), id, n) && Contiguous(rows)
    {
      SwapNeverCollides(rows, id, n);
      var parked, target := rows[id], rows[n];
      rows := rows[id := 0];
      rows := rows[n := parked];
      rows := rows[id := target];
    }
  }

  /** Contiguous positions have a holder for exactly the rungs 1..n. */
  lemma RungHolder(rows: Positions, p: int)
    requires Contiguous(rows)
    ensures (exists n :: n in rows && rows[n] == p) <==> 1 <= p <= |rows|
  {
    EveryRungTaken(rows);
    if 1 <= p <= |rows| {
      assert p in Taken(rows);
    }
  }

  lemma MembersStep(order: seq<nat>, i: nat)
    requires i < |order|
    ensures order[i] in Members(order)
    ensures Members(order[..i + 1]) == Members(order[..i]) + {order[i]}
    ensures (forall a, b | 0 <= a < b < |order| :: order[a] != order[b]) ==> order[i] !in Members(order[..i])
  {
    assert order[..i + 1] == order[..i] + [order[i]];
  }

  lemma ParkStep(rows: Positions, done: set<nat>, gap: nat, id: nat)
    requires id in rows && id !in done
    ensures id in Parked(rows, done, gap) && Parked(rows, done, gap)[id] == rows[id]
    ensures Parked(rows, done + {id}, gap) ==
            if rows[id] > gap then Parked(rows, done, gap)[id := rows[id] + RENUMBER_OFFSET] else Parked(rows, done, gap)
  {
  }

  lemma LowerStep(rows: Positions, done: set<nat>, id: nat)
    requires id in rows && id !in done
    ensures Lowered(rows, done)[id] == rows[id]
    ensures Lowered(rows, done + {id}) ==
            if rows[id] > RENUMBER_OFFSET then Lowered(rows, done)[id := rows[id] - RENUMBER_OFFSET - 1] else Lowered(rows, done)
  {
  }

  /** The table once the parking statement has walked `i` rows. */
  ghost function ParkMoment(before: Positions, order: seq<nat>, i: nat, gap: nat): Positions
    requires i <= |order|
  {
    Parked(before, Members(order[..i]), gap)
  }

  /** One row of the parking statement, and the index after it. */
  lemma ParkOne(order: seq<nat>, i: nat, before: Positions, gap: nat)
    requires Gapped(before, gap) && Walks(order, before) && i < |order|
    ensures var now, id := ParkMoment(before, order, i, gap), order[i];
            && id in now
            && ParkMoment(before, order, i + 1, gap) ==
               (if now[id] > gap then now[id := now[id] + RENUMBER_OFFSET] else now)
            && Unique(ParkMoment(before, order, i + 1, gap))
  {
    hide Unique, Gapped, Parked, Members;
    MembersStep(order, i);
    ParkStep(before, Members(order[..i]), gap, order[i]);
    ParkingNeverCollides(before, gap, Members(order[..i + 1]));
  }

  lemma ParkEnds(order: seq<nat>, before: Positions, gap: nat)
    requires Gapped(before, gap) && Walks(order, before)
    ensures ParkMoment(before, order, 0, gap) == before && Unique(before)
    ensures ParkMoment(before, order, |order|, gap) == Parked(before, before.Keys, gap)
  {
    assert order[..0] == [] && order[..|order|] == order;
  }

  /** The table once the lowering statement has walked `i` rows. */
  ghost function LowerMoment(parked: Positions, order: seq<nat>, i: nat): Positions
    requires i <= |order|
  {
    Lowered(parked, Members(order[..i]))
  }

  /** One row of the lowering statement, and the index after it. */
  lemma LowerOne(order: seq<nat>, i: nat, before: Positions, gap: nat, parked: Positions)
    requires Gapped(before, gap) && parked == Parked(before, before.Keys, gap) && Walks(order, parked) && i < |order|
    ensures var now, id := LowerMoment(parked, order, i), order[i];
            && id in now
            && LowerMoment(parked, order, i + 1) ==
               (if now[id] > RENUMBER_OFFSET then now[id := now[id] - RENUMBER_OFFSET - 1] else now)
            && Unique(LowerMoment(parked, order, i + 1))
  {
    assert order[i] in Members(order);
    MembersStep(order, i);
    LowerStep(parked, Members(order[..i]), order[i]);
    hide Unique, Gapped, Lowered, Parked, Members;
    LoweringNeverCollides(before, gap, Members(order[..i + 1]));
  }

  /** Before the first row and after the last. */
  lemma LowerEnds(order: seq<nat>, before: Positions, gap: nat, parked: Positions)
    requires Gapped(before, gap) && parked == Parked(before, before.Keys, gap) && Walks(order, parked)
    ensures LowerMoment(parked, order, 0) == parked && Unique(parked)
    ensures LowerMoment(parked, order, |order|) == Lowered(parked, before.Keys)
  {
    hide Unique, Gapped;
    assert order[..0] == [] && order[..|order|] == order;
    assert Lowered(parked, {}) == parked;
    LoweringNeverCollides(before, gap, {});
  }

  /** A walk visits every row once. */
  ghost predicate Walks(order: seq<nat>, rows: Positions) {
    Members(order) == rows.Keys && forall i, j | 0 <= i < j < |order| :: order[i] != order[j]
  }

  function Swapped(rows: Positions, a: nat, b: nat): Positions
    requires a in rows && b in rows
  {
    rows[a := rows[b]][b := rows[a]]
  }

  /** The three states a swap passes through all satisfy the unique index; the last is the swap. */
  lemma SwapKeepsContiguity(rows: Positions, a: nat, b: nat)
    requires Contiguous(rows) && a in rows && b in rows
    ensures Contiguous(Swapped(rows, a, b))
  {
    var s := Swapped(rows, a, b);
    assert s.Keys == rows.Keys;
    assert |s| == |s.Keys|;
  }

  lemma SwapNeverCollides(rows: Positions, a: nat, b: nat)
    requires Contiguous(rows) && a in rows && b in rows && a != b
    ensures Unique(rows[a := 0]) && Unique(rows[a := 0][b := rows[a]])
    ensures rows[a := 0][b := rows[a]][a := rows[b]] == Swapped(rows, a, b)
    ensures Contiguous(Swapped(rows, a, b))
  {
    SwapKeepsContiguity(rows, a, b);
    assert rows[a := 0][b := rows[a]][a := rows[b]] == Swapped(rows, a, b);
    hide Swapped;
  }
}
